/** The maintenance script src/scripts/AssignCategoryOrder.mjs: every document
    of "Devices" is grouped by its parent, each group is sorted by name, and
    the member at position `i` of its group gets `{ order: i }` merged into
    its document. The outcome of `getDocs` and the rejection, if any, of
    each `setDoc` call are parameters; the writes that succeed are the
    output, in the order they are issued. `localeCompare` is a collation key
    `collate` supplied by the caller. */
module AssignCategoryOrder {
  import opened Wrappers
  import Seqs
  import opened Taxonomy

  /** `cat.parent || 'root'`: a falsy parent is filed under the key "root",
      and so is a parent id that is literally "root". */
  function GroupKey(p: Parent): (k: string)
    ensures HasParent(p) ==> k == p.id
    ensures k == "root" <==> !HasParent(p) || p.id == "root"
    ensures k != ""
  {
    if HasParent(p) then p.id else "root"
  }

  function InGroup(key: string): Category -> bool {
    (c: Category) => GroupKey(c.parent) == key
  }

  function KeyIn(keys: seq<string>): Category -> bool {
    (c: Category) => GroupKey(c.parent) in keys
  }

  /** `grouped[key]` once the grouping loop has seen `s`. */
  function Group(s: seq<Category>, key: string): seq<Category> {
    Seqs.Filter(s, InGroup(key))
  }

  /** The keys of `grouped`, in the order they were first created. */
  function GroupKeys(s: seq<Category>): seq<string>
    decreases |s|
  {
    if |s| == 0 then []
    else
      var keys := GroupKeys(s[..|s| - 1]);
      var k := GroupKey(s[|s| - 1].parent);
      if k in keys then keys else keys + [k]
  }

  /** The keys are distinct, every category's key is one of them, and each
      is the key of some category. */
  lemma {:induction false} GroupKeysSpec(s: seq<Category>)
    ensures Seqs.NoDuplicates(GroupKeys(s))
    ensures forall i :: 0 <= i < |s| ==> GroupKey(s[i].parent) in GroupKeys(s)
    ensures forall k :: k in GroupKeys(s) ==> exists i :: 0 <= i < |s| && GroupKey(s[i].parent) == k
    decreases |s|
  {
    if |s| > 0 {
      var init := s[..|s| - 1];
      GroupKeysSpec(init);
      var keys := GroupKeys(init);
      var k := GroupKey(s[|s| - 1].parent);
      forall i | 0 <= i < |s|
        ensures GroupKey(s[i].parent) in GroupKeys(s)
      {
        if i < |s| - 1 {
          assert s[i] == init[i];
        }
      }
      forall k' | k' in GroupKeys(s)
        ensures exists i :: 0 <= i < |s| && GroupKey(s[i].parent) == k'
      {
        if k' in keys {
          var i :| 0 <= i < |init| && GroupKey(init[i].parent) == k';
          assert s[i] == init[i];
        } else {
          assert GroupKey(s[|s| - 1].parent) == k';
        }
      }
    }
  }

  /** The comparator `a.name.localeCompare(b.name)` as a sort key. */
  function NameKey(collate: string -> int): Category -> int {
    (c: Category) => collate(c.name)
  }

  /** `group.sort(...)`: a stable sort by name. */
  function SortedGroup(all: seq<Category>, collate: string -> int, key: string): (g: seq<Category>)
    ensures multiset(g) == multiset(Group(all, key))
    ensures forall i, j :: 0 <= i < j < |g| ==> collate(g[i].name) <= collate(g[j].name)
  {
    var g := Seqs.SortBy(Group(all, key), NameKey(collate));
    assert forall i, j :: 0 <= i < j < |g| ==> NameKey(collate)(g[i]) <= NameKey(collate)(g[j]);
    g
  }

  /** The sorted groups, in the order `Object.entries` visits them. */
  function Blocks(all: seq<Category>, collate: string -> int): (blocks: seq<seq<Category>>)
    ensures |blocks| == |GroupKeys(all)|
    ensures forall j :: 0 <= j < |blocks| ==> blocks[j] == SortedGroup(all, collate, GroupKeys(all)[j])
  {
    var keys := GroupKeys(all);
    seq(|keys|, j requires 0 <= j < |keys| => SortedGroup(all, collate, keys[j]))
  }

  /** The writes for one sorted group: member `i` gets order `i`. */
  function Numbered(g: seq<Category>): (w: seq<OrderWrite>)
    ensures |w| == |g| && forall i :: 0 <= i < |g| ==> w[i] == OrderWrite(g[i].id, i)
  {
    seq(|g|, i requires 0 <= i < |g| => OrderWrite(g[i].id, i))
  }

  /** The writes issued for `blocks`, one group after another. */
  function WritesOf(blocks: seq<seq<Category>>): seq<OrderWrite>
    decreases |blocks|
  {
    if blocks == [] then [] else Numbered(blocks[0]) + WritesOf(blocks[1..])
  }

  /** The categories those writes go to, in the same order. */
  function Flatten(blocks: seq<seq<Category>>): seq<Category>
    decreases |blocks|
  {
    if blocks == [] then [] else blocks[0] + Flatten(blocks[1..])
  }

  /** Every `setDoc` of a run in which none is rejected, in order. */
  function Writes(all: seq<Category>, collate: string -> int): seq<OrderWrite> {
    WritesOf(Blocks(all, collate))
  }

  /** Where block `j` starts among the writes. */
  function Offset(blocks: seq<seq<Category>>, j: nat): nat
    requires j <= |blocks|
    decreases j
  {
    if j == 0 then 0 else Offset(blocks, j - 1) + |blocks[j - 1]|
  }

  // ---------------------------------------------------------------------------
  // The script

  /** How a run ends: every write made and the total logged, or the first
      rejection caught by the `.catch` handler, which logs only the error. */
  datatype RunEnd = Finished(totalUpdates: nat) | Caught(error: string)

  /** The first `setDoc` call that is rejected, numbered from 0 in the order
      the calls are issued, and its error. Later calls are never made, so
      only the first rejection matters. */
  datatype Rejection = Rejection(call: nat, error: string)

  /** Whether the rejection falls on one of the calls `lo` up to `hi`. */
  predicate RejectedIn(rejection: Option<Rejection>, lo: nat, hi: nat) {
    rejection.Some? && lo <= rejection.value.call < hi
  }

  /** The writes of `w`, issued as calls `lo` onwards, that land: those
      before the rejected call. */
  function Landed(w: seq<OrderWrite>, lo: nat, rejection: Option<Rejection>): (r: seq<OrderWrite>)
    ensures RejectedIn(rejection, lo, lo + |w|) ==> |r| == rejection.value.call - lo
    ensures !RejectedIn(rejection, lo, lo + |w|) ==> r == w
  {
    if RejectedIn(rejection, lo, lo + |w|) then w[..rejection.value.call - lo] else w
  }

  /** `assignOrderToCategories().catch(...)`: a rejected `getDocs` issues no
      write; otherwise the writes land in order up to the rejected `setDoc`,
      which ends both loops. Only a run without a rejection logs its
      `totalUpdates`, the number of categories. */
  method AssignOrder(snapshot: Result<seq<Category>, string>, collate: string -> int, rejection: Option<Rejection>)
    returns (writes: seq<OrderWrite>, end: RunEnd)
    ensures snapshot.Err? ==> writes == [] && end == Caught(snapshot.error)
    ensures snapshot.Ok? ==>
      var all := Writes(snapshot.value, collate);
      if RejectedIn(rejection, 0, |all|) then
        writes == all[..rejection.value.call] && end == Caught(rejection.value.error)
      else
        writes == all && end == Finished(|snapshot.value|)
  {
    if snapshot.Err? {
      return [], Caught(snapshot.error);
    }
    var all := snapshot.value;
    var keys, grouped := GroupByParent(all);
    var totalUpdates, failure;
    writes, totalUpdates, failure := WriteGroups(keys, grouped, collate, rejection);
    assert SortedBlocks(keys, grouped, collate) == Blocks(all, collate);
    WritesCount(all, collate);
    if failure.Some? {
      end := Caught(failure.value);
    } else {
      end := Finished(totalUpdates);
    }
  }

  /** `group.sort(...)` for every group, in key order. */
  function SortedBlocks(keys: seq<string>, grouped: map<string, seq<Category>>, collate: string -> int): (blocks: seq<seq<Category>>)
    requires forall j :: 0 <= j < |keys| ==> keys[j] in grouped
    ensures |blocks| == |keys|
  {
    seq(|keys|, j requires 0 <= j < |keys| => Seqs.SortBy(grouped[keys[j]], NameKey(collate)))
  }

  /** The loop over `Object.entries(grouped)`, left at the rejected
      `setDoc`: the writes that landed, the count of them, and the
      rejection's error. */
  method WriteGroups(keys: seq<string>, grouped: map<string, seq<Category>>, collate: string -> int, rejection: Option<Rejection>)
    returns (writes: seq<OrderWrite>, totalUpdates: nat, failure: Option<string>)
    requires forall j :: 0 <= j < |keys| ==> keys[j] in grouped
    ensures var all := WritesOf(SortedBlocks(keys, grouped, collate));
            && writes == Landed(all, 0, rejection)
            && totalUpdates == |writes|
            && failure == (if RejectedIn(rejection, 0, |all|) then Some(rejection.value.error) else None)
  {
    ghost var all := WritesOf(SortedBlocks(keys, grouped, collate));
    PendingFrom(keys, grouped, collate, 0);
    writes, totalUpdates, failure := [], 0, None;
    var j := 0;
    while j < |keys|
      invariant 0 <= j <= |keys|
      invariant writes + Pending(keys, grouped, collate, j) == all
      invariant totalUpdates == |writes|
      invariant !RejectedIn(rejection, 0, totalUpdates)
      invariant failure.None?
    {
      var groupWrites;
      groupWrites, totalUpdates, failure := WriteBlock(keys, grouped, collate, j, writes, rejection);
      writes := writes + groupWrites;
      if failure.Some? {
        return;
      }
      j := j + 1;
    }
    PendingFrom(keys, grouped, collate, j);
  }

  /** One turn of the loop over `Object.entries(grouped)`, after the writes
      `done` have landed: `group.sort(...)` and the inner loop. A rejection
      inside the group ends the run with the writes before it; otherwise the
      whole group lands and the later groups remain. */
  method WriteBlock(keys: seq<string>, grouped: map<string, seq<Category>>, collate: string -> int, j: nat,
                    done: seq<OrderWrite>, rejection: Option<Rejection>)
    returns (groupWrites: seq<OrderWrite>, totalUpdates: nat, failure: Option<string>)
    requires forall j :: 0 <= j < |keys| ==> keys[j] in grouped
    requires j < |keys|
    requires !RejectedIn(rejection, 0, |done|)
    ensures totalUpdates == |done| + |groupWrites|
    ensures var all := done + Pending(keys, grouped, collate, j);
            failure.Some? ==>
              && done + groupWrites == Landed(all, 0, rejection)
              && RejectedIn(rejection, 0, |all|)
              && failure == Some(rejection.value.error)
    ensures failure.None? ==>
              && (done + groupWrites) + Pending(keys, grouped, collate, j + 1) == done + Pending(keys, grouped, collate, j)
              && !RejectedIn(rejection, 0, |done| + |groupWrites|)
  {
    PendingFrom(keys, grouped, collate, j);
    var group := Seqs.SortBy(grouped[keys[j]], NameKey(collate));
    groupWrites, totalUpdates, failure := WriteGroup(group, |done|, rejection);
    GroupStep(done, Numbered(group), Pending(keys, grouped, collate, j + 1), done + Pending(keys, grouped, collate, j), groupWrites, rejection);
  }

  /** The writes of the groups from key `j` on. */
  ghost function Pending(keys: seq<string>, grouped: map<string, seq<Category>>, collate: string -> int, j: nat): seq<OrderWrite>
    requires forall j :: 0 <= j < |keys| ==> keys[j] in grouped
    requires j <= |keys|
  {
    WritesOf(SortedBlocks(keys, grouped, collate)[j..])
  }

  lemma PendingFrom(keys: seq<string>, grouped: map<string, seq<Category>>, collate: string -> int, j: nat)
    requires forall j :: 0 <= j < |keys| ==> keys[j] in grouped
    requires j <= |keys|
    ensures j == 0 ==> Pending(keys, grouped, collate, j) == WritesOf(SortedBlocks(keys, grouped, collate))
    ensures j == |keys| ==> Pending(keys, grouped, collate, j) == []
    ensures j < |keys| ==>
      Pending(keys, grouped, collate, j) == Numbered(Seqs.SortBy(grouped[keys[j]], NameKey(collate))) + Pending(keys, grouped, collate, j + 1)
  {
    var blocks := SortedBlocks(keys, grouped, collate);
    assert blocks[0..] == blocks;
    if j < |keys| {
      WritesOfFrom(blocks, j);
    }
  }

  /** One turn of the outer loop: the group `w` follows the landed writes
      `done`. A rejection inside it leaves `done` and the part of `w` before
      it; otherwise all of `w` lands and `rest` remains. */
  lemma GroupStep(done: seq<OrderWrite>, w: seq<OrderWrite>, rest: seq<OrderWrite>, all: seq<OrderWrite>,
                  landed: seq<OrderWrite>, rejection: Option<Rejection>)
    requires done + (w + rest) == all
    requires !RejectedIn(rejection, 0, |done|)
    requires landed == Landed(w, |done|, rejection)
    ensures RejectedIn(rejection, |done|, |done| + |w|) ==>
      done + landed == Landed(all, 0, rejection) && RejectedIn(rejection, 0, |all|)
    ensures !RejectedIn(rejection, |done|, |done| + |w|) ==>
      (done + landed) + rest == all && !RejectedIn(rejection, 0, |done + landed|)
  {
    if RejectedIn(rejection, |done|, |done| + |w|) {
      var m := rejection.value.call - |done|;
      assert (w + rest)[..m] == w[..m];
      TakeAppend(done, w + rest, m);
    } else {
      Seqs.AppendAssoc(done, w, rest);
    }
  }

  lemma TakeAppend<T>(a: seq<T>, b: seq<T>, m: nat)
    requires m <= |b|
    ensures (a + b)[..|a| + m] == a + b[..m]
  {
    assert forall i :: 0 <= i < |a| + m ==> (a + b)[..|a| + m][i] == (a + b[..m])[i];
  }

  /** `keys` and `grouped` as the grouping loop leaves them after `seen`. */
  ghost predicate Grouping(seen: seq<Category>, keys: seq<string>, grouped: map<string, seq<Category>>) {
    && keys == GroupKeys(seen)
    && (forall k :: k in grouped <==> k in keys)
    && (forall k :: k in grouped ==> grouped[k] == Group(seen, k))
  }

  /** The grouping loop: the keys in creation order and `grouped`. */
  method GroupByParent(all: seq<Category>) returns (keys: seq<string>, grouped: map<string, seq<Category>>)
    ensures keys == GroupKeys(all)
    ensures forall k :: k in grouped ==> k in keys
    ensures forall j :: 0 <= j < |keys| ==> keys[j] in grouped && grouped[keys[j]] == Group(all, keys[j])
  {
    keys, grouped := [], map[];
    ghost var seen: seq<Category> := [];
    var i := 0;
    while i < |all|
      invariant 0 <= i <= |all| && seen == all[..i]
      invariant Grouping(seen, keys, grouped)
    {
      var cat := all[i];
      Seqs.TakeSnoc(all, i);
      var parent := GroupKey(cat.parent);
      if parent in grouped {
        GroupStepExisting(seen, cat, keys, grouped);
      } else {
        GroupStepNew(seen, cat, keys, grouped);
      }
      if parent !in grouped {
        grouped := grouped[parent := []];
        keys := keys + [parent];
      }
      grouped := grouped[parent := grouped[parent] + [cat]];
      seen := seen + [cat];
      i := i + 1;
    }
    assert seen == all;
    GroupingFacts(all, keys, grouped);
  }

  lemma GroupingFacts(all: seq<Category>, keys: seq<string>, grouped: map<string, seq<Category>>)
    requires Grouping(all, keys, grouped)
    ensures keys == GroupKeys(all)
    ensures forall k :: k in grouped ==> k in keys
    ensures forall j :: 0 <= j < |keys| ==> keys[j] in grouped && grouped[keys[j]] == Group(all, keys[j])
  {
    assert forall j :: 0 <= j < |keys| ==> keys[j] in grouped;
  }

  /** One step of the grouping loop keeps `Grouping`: a category whose key
      exists joins that group. */
  lemma GroupStepExisting(seen: seq<Category>, cat: Category, keys: seq<string>, grouped: map<string, seq<Category>>)
    requires Grouping(seen, keys, grouped) && GroupKey(cat.parent) in grouped
    ensures var parent := GroupKey(cat.parent);
            Grouping(seen + [cat], keys, grouped[parent := grouped[parent] + [cat]])
  {
    var parent := GroupKey(cat.parent);
    var grouped' := grouped[parent := grouped[parent] + [cat]];
    assert parent in keys;
    GroupKeysSnoc(seen, cat);
    GroupsAfter(seen, cat, grouped);
    assert grouped'.Keys == grouped.Keys;
  }

  /** The other step: a category with a new key creates the key, after the
      existing ones, with an empty group, and joins it. */
  lemma GroupStepNew(seen: seq<Category>, cat: Category, keys: seq<string>, grouped: map<string, seq<Category>>)
    requires Grouping(seen, keys, grouped) && GroupKey(cat.parent) !in grouped
    ensures var parent := GroupKey(cat.parent);
            var start := grouped[parent := []];
            Grouping(seen + [cat], keys + [parent], start[parent := start[parent] + [cat]])
  {
    var parent := GroupKey(cat.parent);
    GroupKeysSnoc(seen, cat);
    EmptyGroup(seen, parent);
    GroupsAfter(seen, cat, grouped[parent := []]);
  }

  /** Pushing a category onto its own group keeps every group equal to the
      categories seen with that key. */
  lemma GroupsAfter(seen: seq<Category>, cat: Category, grouped: map<string, seq<Category>>)
    requires forall k :: k in grouped ==> grouped[k] == Group(seen, k)
    requires GroupKey(cat.parent) in grouped
    ensures var parent := GroupKey(cat.parent);
            var grouped' := grouped[parent := grouped[parent] + [cat]];
            forall k :: k in grouped' ==> grouped'[k] == Group(seen + [cat], k)
  {
    var parent := GroupKey(cat.parent);
    var grouped' := grouped[parent := grouped[parent] + [cat]];
    forall k | k in grouped'
      ensures grouped'[k] == Group(seen + [cat], k)
    {
      GroupSnoc(seen, cat, k);
    }
  }

  lemma GroupKeysSnoc(seen: seq<Category>, cat: Category)
    ensures var keys := GroupKeys(seen);
            var parent := GroupKey(cat.parent);
            GroupKeys(seen + [cat]) == if parent in keys then keys else keys + [parent]
  {
    assert (seen + [cat])[..|seen|] == seen;
  }

  lemma GroupSnoc(seen: seq<Category>, cat: Category, k: string)
    ensures Group(seen + [cat], k) == Group(seen, k) + (if GroupKey(cat.parent) == k then [cat] else [])
  {
    Seqs.FilterAppend(seen, [cat], InGroup(k));
  }

  /** A key that no category carries has an empty group. */
  lemma EmptyGroup(s: seq<Category>, key: string)
    ensures key !in GroupKeys(s) ==> Group(s, key) == []
  {
    if |Group(s, key)| > 0 {
      var c := Group(s, key)[0];
      assert c in Group(s, key);
      var i :| 0 <= i < |s| && s[i] == c;
      GroupKeysSpec(s);
    }
  }

  /** The inner loop over one sorted group, whose calls are numbered from
      `before`: member `i` is written order `i` until the rejected
      `setDoc`. */
  method WriteGroup(group: seq<Category>, before: nat, rejection: Option<Rejection>)
    returns (groupWrites: seq<OrderWrite>, totalUpdates: nat, failure: Option<string>)
    ensures groupWrites == Landed(Numbered(group), before, rejection)
    ensures totalUpdates == before + |groupWrites|
    ensures failure == (if RejectedIn(rejection, before, before + |group|) then Some(rejection.value.error) else None)
  {
    groupWrites, totalUpdates, failure := [], before, None;
    var i := 0;
    while i < |group|
      invariant 0 <= i <= |group|
      invariant groupWrites == Numbered(group)[..i]
      invariant totalUpdates == before + i
      invariant !RejectedIn(rejection, before, totalUpdates)
    {
      if rejection.Some? && rejection.value.call == totalUpdates {
        return groupWrites, totalUpdates, Some(rejection.value.error);
      }
      assert Numbered(group)[..i + 1] == Numbered(group)[..i] + [OrderWrite(group[i].id, i)];
      groupWrites := groupWrites + [OrderWrite(group[i].id, i)];
      totalUpdates := totalUpdates + 1;
      i := i + 1;
    }
    assert Numbered(group)[..i] == Numbered(group);
  }

  // ---------------------------------------------------------------------------
  // Properties

  /** Write `t` goes to the `t`-th written category. */
  lemma {:induction false} WritesTarget(blocks: seq<seq<Category>>)
    ensures |WritesOf(blocks)| == |Flatten(blocks)|
    ensures forall t :: 0 <= t < |Flatten(blocks)| ==> WritesOf(blocks)[t].id == Flatten(blocks)[t].id
    decreases |blocks|
  {
    if blocks != [] {
      WritesTarget(blocks[1..]);
    }
  }

  lemma WritesOfFrom(blocks: seq<seq<Category>>, j: nat)
    requires j < |blocks|
    ensures WritesOf(blocks[j..]) == Numbered(blocks[j]) + WritesOf(blocks[j + 1..])
  {
    assert blocks[j..][1..] == blocks[j + 1..];
  }

  /** Groups laid out under distinct keys hold, with multiplicity, the
      categories whose key is one of them. */
  lemma {:induction false} FlattenGroups(blocks: seq<seq<Category>>, keys: seq<string>, all: seq<Category>)
    requires |blocks| == |keys| && Seqs.NoDuplicates(keys)
    requires forall j :: 0 <= j < |keys| ==> multiset(blocks[j]) == multiset(Group(all, keys[j]))
    ensures multiset(Flatten(blocks)) == multiset(Seqs.Filter(all, KeyIn(keys)))
    decreases |keys|
  {
    if keys == [] {
      DropAll(all, KeyIn(keys));
    } else {
      var rest := keys[1..];
      assert forall j :: 0 <= j < |rest| ==> rest[j] == keys[j + 1] && blocks[1..][j] == blocks[j + 1];
      FlattenGroups(blocks[1..], rest, all);
      assert keys[0] !in rest;
      Seqs.FilterSplit(all, InGroup(keys[0]), KeyIn(rest), KeyIn(keys));
    }
  }

  lemma {:induction false} DropAll(s: seq<Category>, f: Category -> bool)
    requires forall i :: 0 <= i < |s| ==> !f(s[i])
    ensures Seqs.Filter(s, f) == []
    decreases |s|
  {
    if s != [] {
      assert forall i :: 0 <= i < |s[1..]| ==> s[1..][i] == s[i + 1];
      DropAll(s[1..], f);
    }
  }

  /** The script writes to every category once, with multiplicity: the
      written categories are a permutation of the snapshot, and there are
      as many writes as categories, which is the final `totalUpdates`. */
  lemma WritesCount(all: seq<Category>, collate: string -> int)
    ensures multiset(Flatten(Blocks(all, collate))) == multiset(all)
    ensures |Writes(all, collate)| == |all| && |Flatten(Blocks(all, collate))| == |all|
    ensures forall t :: 0 <= t < |all| ==> Writes(all, collate)[t].id == Flatten(Blocks(all, collate))[t].id
  {
    var keys := GroupKeys(all);
    var blocks := Blocks(all, collate);
    GroupKeysSpec(all);
    FlattenGroups(blocks, keys, all);
    Seqs.FilterKeepsAll(all, KeyIn(keys));
    WritesTarget(blocks);
    assert |multiset(Flatten(blocks))| == |multiset(all)|;
  }

  /** With unique ids, each category has exactly one write: some
      write goes to it, and no two writes share an id. */
  lemma WrittenOnce(all: seq<Category>, collate: string -> int)
    requires UniqueIds(all)
    ensures forall i :: 0 <= i < |all| ==> exists t :: 0 <= t < |Writes(all, collate)| && Writes(all, collate)[t].id == all[i].id
    ensures forall t, u ::
      (0 <= t < |Writes(all, collate)| && 0 <= u < |Writes(all, collate)| &&
       Writes(all, collate)[t].id == Writes(all, collate)[u].id) ==> t == u
  {
    WritesCount(all, collate);
    PermutedWrites(Writes(all, collate), Flatten(Blocks(all, collate)), all);
  }

  /** Writes aimed, one each, at a permutation of categories with unique ids
      reach every category exactly once. */
  lemma PermutedWrites(w: seq<OrderWrite>, cats: seq<Category>, all: seq<Category>)
    requires UniqueIds(all) && multiset(cats) == multiset(all)
    requires |w| == |cats| && forall t :: 0 <= t < |cats| ==> w[t].id == cats[t].id
    ensures forall i :: 0 <= i < |all| ==> exists t :: 0 <= t < |w| && w[t].id == all[i].id
    ensures forall t, u :: (0 <= t < |w| && 0 <= u < |w| && w[t].id == w[u].id) ==> t == u
  {
    UniqueIdsDistinct(all);
    Seqs.DistinctSubMultiset(cats, all);
    forall i | 0 <= i < |all|
      ensures exists t :: 0 <= t < |w| && w[t].id == all[i].id
    {
      assert all[i] in multiset(cats);
      var t :| 0 <= t < |cats| && cats[t] == all[i];
      assert w[t].id == all[i].id;
    }
    forall t, u | 0 <= t < |w| && 0 <= u < |w| && w[t].id == w[u].id
      ensures t == u
    {
      assert cats[t] in multiset(all) && cats[u] in multiset(all);
      SameId(all, cats[t], cats[u]);
    }
  }

  /** Each group's writes form one block: the member at position `i` of the
      group gets order `i`, so the orders within a group are exactly 0 to its
      size minus one. */
  lemma {:induction false} GroupBlock(blocks: seq<seq<Category>>, j: nat)
    requires j < |blocks|
    ensures Offset(blocks, j) + |blocks[j]| <= |WritesOf(blocks)|
    ensures forall i :: 0 <= i < |blocks[j]| ==>
      WritesOf(blocks)[Offset(blocks, j) + i] == OrderWrite(blocks[j][i].id, i)
    decreases j
  {
    var head := Numbered(blocks[0]);
    var rest := WritesOf(blocks[1..]);
    assert WritesOf(blocks) == head + rest;
    if j > 0 {
      GroupBlock(blocks[1..], j - 1);
      OffsetTail(blocks, j);
      assert blocks[1..][j - 1] == blocks[j];
      ShiftedBlock(head, rest, Offset(blocks[1..], j - 1), blocks[j]);
    }
  }

  /** A block inside `rest` sits `|head|` further on in `head + rest`. */
  lemma ShiftedBlock(head: seq<OrderWrite>, rest: seq<OrderWrite>, o: nat, g: seq<Category>)
    requires o + |g| <= |rest|
    requires forall i :: 0 <= i < |g| ==> rest[o + i] == OrderWrite(g[i].id, i)
    ensures forall i :: 0 <= i < |g| ==> (head + rest)[|head| + o + i] == OrderWrite(g[i].id, i)
  {
  }

  lemma {:induction false} OffsetTail(blocks: seq<seq<Category>>, j: nat)
    requires 0 < j <= |blocks|
    ensures Offset(blocks, j) == |blocks[0]| + Offset(blocks[1..], j - 1)
    decreases j
  {
    if j > 1 {
      OffsetTail(blocks, j - 1);
    }
  }

  /** The script's `j`-th group holds exactly the categories filed under its
      key, sorted by name. */
  lemma GroupMembers(all: seq<Category>, collate: string -> int, j: nat)
    requires j < |GroupKeys(all)|
    ensures var g := SortedGroup(all, collate, GroupKeys(all)[j]);
            && (forall c :: c in g <==> c in all && GroupKey(c.parent) == GroupKeys(all)[j])
            && (forall i, i' :: 0 <= i < i' < |g| ==> collate(g[i].name) <= collate(g[i'].name))
  {
    var key := GroupKeys(all)[j];
    var g := SortedGroup(all, collate, key);
    forall c ensures c in g <==> c in all && GroupKey(c.parent) == key {
      assert c in g <==> c in multiset(Group(all, key));
    }
  }

  /** The writes for the script's `j`-th group form one block, member `i` of
      the sorted group getting order `i`. */
  lemma GroupWrites(all: seq<Category>, collate: string -> int, j: nat)
    requires j < |GroupKeys(all)|
    ensures var blocks := Blocks(all, collate);
            var off := Offset(blocks, j);
            && blocks[j] == SortedGroup(all, collate, GroupKeys(all)[j])
            && off + |blocks[j]| <= |Writes(all, collate)|
            && (forall i :: 0 <= i < |blocks[j]| ==> Writes(all, collate)[off + i] == OrderWrite(blocks[j][i].id, i))
  {
    var blocks := Blocks(all, collate);
    assert Writes(all, collate) == WritesOf(blocks);
    GroupBlock(blocks, j);
  }
}
