/** The device import script (src/import/ImportDevices.js): its hand-written
    `slugify`, a chain of `trim`, `toLowerCase` and three regular-expression
    replacements, and the document id it derives for each imported item. */
module ImportDevices {
  import opened Wrappers
  import opened Js
  import Seqs
  import Text

  /** `\w`: an ASCII letter, digit or underscore. */
  predicate IsWordChar(c: char) {
    ('a' <= c <= 'z') || ('A' <= c <= 'Z') || ('0' <= c <= '9') || c == '_'
  }

  /** `[\w\-]`, the characters the second replacement keeps. */
  predicate Kept(c: char) {
    IsWordChar(c) || c == '-'
  }

  predicate IsUnderscore(c: char) {
    c == '_'
  }

  /** An ASCII letter, digit or hyphen: what the slug carries over. */
  predicate IsAlnumHyphen(c: char) {
    ('a' <= c <= 'z') || ('A' <= c <= 'Z') || ('0' <= c <= '9') || c == '-'
  }

  /** `[a-z0-9_-]`. */
  predicate IsSlugChar(c: char) {
    ('a' <= c <= 'z') || ('0' <= c <= '9') || c == '_' || c == '-'
  }

  predicate NoDoubleUnderscore(s: string) {
    forall i :: 0 <= i < |s| - 1 ==> !(s[i] == '_' && s[i + 1] == '_')
  }

  /** `s` without its leading run of characters satisfying `p`. */
  function DropRun(s: string, p: char -> bool): (r: string)
    ensures |r| <= |s| && r == s[|s| - |r|..]
    ensures r != [] ==> !p(r[0])
    ensures forall c :: c in r ==> c in s
    decreases |s|
  {
    if s != [] && p(s[0]) then DropRun(s[1..], p) else s
  }

  /** `s.replace(/p+/g, rep)`: every maximal run of characters satisfying `p`
      becomes the single character `rep`. */
  function CollapseRuns(s: string, p: char -> bool, rep: char): (r: string)
    ensures |r| <= |s|
    ensures (r == []) == (s == [])
    ensures s != [] && !p(s[0]) ==> r[0] == s[0]
    ensures s != [] && p(s[0]) ==> r[0] == rep
    decreases |s|
  {
    if s == [] then []
    else if p(s[0]) then [rep] + CollapseRuns(DropRun(s[1..], p), p, rep)
    else [s[0]] + CollapseRuns(s[1..], p, rep)
  }

  /** `name.trim().toLowerCase().replace(/\s+/g, "_").replace(/[^\w\-]+/g, "")
      .replace(/_+/g, "_")`. The second replacement removes each character
      outside `[\w\-]`, which is what removing their runs amounts to. */
  function Slugify(name: string): string {
    var spaced := CollapseRuns(Text.ToLower(Text.Trim(name)), Text.IsSpace, '_');
    CollapseRuns(Seqs.Filter(spaced, Kept), IsUnderscore, '_')
  }

  // ---------------------------------------------------------------------------
  // Run collapsing

  /** Nothing to collapse: the string is unchanged. */
  lemma {:induction false} CollapseNoRun(s: string, p: char -> bool, rep: char)
    requires forall i :: 0 <= i < |s| ==> !p(s[i])
    ensures CollapseRuns(s, p, rep) == s
    decreases |s|
  {
    if s != [] {
      CollapseNoRun(s[1..], p, rep);
    }
  }

  /** Underscores standing alone are already collapsed. */
  lemma {:induction false} CollapseSingleUnderscores(s: string)
    requires NoDoubleUnderscore(s)
    ensures CollapseRuns(s, IsUnderscore, '_') == s
    decreases |s|
  {
    if s != [] {
      assert NoDoubleUnderscore(s[1..]) by {
        forall i | 0 <= i < |s[1..]| - 1
          ensures !(s[1..][i] == '_' && s[1..][i + 1] == '_')
        {
          assert s[1..][i] == s[i + 1] && s[1..][i + 1] == s[i + 2];
        }
      }
      if IsUnderscore(s[0]) {
        assert |s| > 1 ==> !IsUnderscore(s[1]);
        assert DropRun(s[1..], IsUnderscore) == s[1..];
      }
      CollapseSingleUnderscores(s[1..]);
    }
  }

  /** After collapsing into a character of the run, no two run characters
      stand side by side. */
  lemma {:induction false} CollapseSeparates(s: string, p: char -> bool, rep: char)
    requires p(rep)
    ensures Separated(CollapseRuns(s, p, rep), p)
    decreases |s|
  {
    if s != [] {
      var r := CollapseRuns(s, p, rep);
      var rest := if p(s[0]) then DropRun(s[1..], p) else s[1..];
      var tail := CollapseRuns(rest, p, rep);
      CollapseSeparates(rest, p, rep);
      if p(s[0]) {
        assert r == [rep] + tail;
        assert tail != [] ==> !p(tail[0]);
      } else {
        assert r == [s[0]] + tail;
      }
      forall i | 0 <= i < |r| - 1
        ensures !(p(r[i]) && p(r[i + 1]))
      {
        if i > 0 {
          assert r[i] == tail[i - 1] && r[i + 1] == tail[i];
          assert !(p(tail[i - 1]) && p(tail[i - 1 + 1]));
        }
      }
    }
  }

  /** No two characters satisfying `p` side by side. */
  predicate Separated(r: string, p: char -> bool) {
    forall i :: 0 <= i < |r| - 1 ==> !(p(r[i]) && p(r[i + 1]))
  }

  /** Every character of the result is `rep` or a character of `s` outside
      the runs. */
  lemma {:induction false} CollapseChars(s: string, p: char -> bool, rep: char)
    ensures forall c :: c in CollapseRuns(s, p, rep) ==> c == rep || (c in s && !p(c))
    decreases |s|
  {
    if s != [] {
      var r := CollapseRuns(s, p, rep);
      var rest := if p(s[0]) then DropRun(s[1..], p) else s[1..];
      CollapseChars(rest, p, rep);
      var tail := CollapseRuns(rest, p, rep);
      if p(s[0]) {
        assert r == [rep] + tail;
      } else {
        assert r == [s[0]] + tail;
      }
      assert forall c :: c in rest ==> c in s;
    }
  }

  /** A filter that keeps neither `rep` nor run characters sees the same
      characters before and after collapsing. */
  lemma {:induction false} CollapseFilter(s: string, p: char -> bool, rep: char, q: char -> bool)
    requires !q(rep)
    requires forall i :: 0 <= i < |s| && q(s[i]) ==> !p(s[i])
    ensures Seqs.Filter(CollapseRuns(s, p, rep), q) == Seqs.Filter(s, q)
    decreases |s|
  {
    if s != [] {
      if p(s[0]) {
        var rest := DropRun(s[1..], p);
        var k := |s[1..]| - |rest|;
        assert rest == s[1..][k..];
        forall i | 0 <= i < |rest| && q(rest[i])
          ensures !p(rest[i])
        {
          assert rest[i] == s[1 + k + i];
        }
        CollapseFilter(rest, p, rep, q);
        forall i | 0 <= i < k
          ensures !q(s[1..][i])
        {
          assert s[1..][i] == s[1 + i];
          assert p(s[1..][..k + |rest|][i]) by { DropRunPrefix(s[1..], p, i); }
        }
        Text.FilterDropPrefix(s[1..], k, q);
        assert CollapseRuns(s, p, rep) == [rep] + CollapseRuns(rest, p, rep);
      } else {
        forall i | 0 <= i < |s[1..]| && q(s[1..][i])
          ensures !p(s[1..][i])
        {
          assert s[1..][i] == s[i + 1];
        }
        CollapseFilter(s[1..], p, rep, q);
        assert CollapseRuns(s, p, rep) == [s[0]] + CollapseRuns(s[1..], p, rep);
      }
    }
  }

  /** The characters `DropRun` skips satisfy `p`. */
  lemma {:induction false} DropRunPrefix(s: string, p: char -> bool, i: nat)
    requires i < |s| - |DropRun(s, p)|
    ensures p(s[i])
    decreases |s|
  {
    if i > 0 {
      DropRunPrefix(s[1..], p, i - 1);
    }
  }

  // ---------------------------------------------------------------------------
  // What a slug is

  /** A slug holds only lower-case ASCII letters, digits, `_` and `-`; in
      particular no white space. */
  lemma SlugChars(name: string)
    ensures forall c :: c in Slugify(name) ==> IsSlugChar(c) && !Text.IsSpace(c)
  {
    var lowered := Text.ToLower(Text.Trim(name));
    var spaced := CollapseRuns(lowered, Text.IsSpace, '_');
    var kept := Seqs.Filter(spaced, Kept);
    assert Slugify(name) == CollapseRuns(kept, IsUnderscore, '_');
    assert forall c :: c in lowered ==> !Text.IsUpper(c);
    CollapseChars(lowered, Text.IsSpace, '_');
    CollapseChars(kept, IsUnderscore, '_');
  }

  /** No slug contains `__`: the underscore collapse runs last. */
  lemma SlugNoDoubleUnderscore(name: string)
    ensures NoDoubleUnderscore(Slugify(name))
  {
    var spaced := CollapseRuns(Text.ToLower(Text.Trim(name)), Text.IsSpace, '_');
    var r := Slugify(name);
    assert r == CollapseRuns(Seqs.Filter(spaced, Kept), IsUnderscore, '_');
    CollapseSeparates(Seqs.Filter(spaced, Kept), IsUnderscore, '_');
    assert Separated(r, IsUnderscore);
    forall i | 0 <= i < |r| - 1
      ensures !(r[i] == '_' && r[i + 1] == '_')
    {
      assert !(IsUnderscore(r[i]) && IsUnderscore(r[i + 1]));
    }
  }

  /** Every ASCII letter, digit and hyphen of the name survives, lower-cased
      and in order, and nothing else but underscores is added. */
  lemma SlugKeepsAlnum(name: string)
    ensures Seqs.Filter(Slugify(name), IsAlnumHyphen) == Seqs.Filter(Text.ToLower(name), IsAlnumHyphen)
  {
    var lowered := Text.ToLower(Text.Trim(name));
    var spaced := CollapseRuns(lowered, Text.IsSpace, '_');
    var kept := Seqs.Filter(spaced, Kept);
    assert Slugify(name) == CollapseRuns(kept, IsUnderscore, '_');
    assert Seqs.Filter(CollapseRuns(kept, IsUnderscore, '_'), IsAlnumHyphen) == Seqs.Filter(kept, IsAlnumHyphen) by {
      CollapseFilter(kept, IsUnderscore, '_', IsAlnumHyphen);
    }
    assert Seqs.Filter(kept, IsAlnumHyphen) == Seqs.Filter(spaced, IsAlnumHyphen) by {
      Seqs.FilterFilter(spaced, Kept, IsAlnumHyphen, IsAlnumHyphen);
    }
    assert Seqs.Filter(spaced, IsAlnumHyphen) == Seqs.Filter(lowered, IsAlnumHyphen) by {
      AlnumNotSpace(lowered);
      CollapseFilter(lowered, Text.IsSpace, '_', IsAlnumHyphen);
    }
    assert Seqs.Filter(lowered, IsAlnumHyphen) == Seqs.Filter(Text.ToLower(name), IsAlnumHyphen) by {
      Text.LowerTrim(name);
      AlnumNotSpace(Text.ToLower(name));
      Text.TrimFilter(Text.ToLower(name), IsAlnumHyphen);
    }
  }

  lemma AlnumNotSpace(s: string)
    ensures forall i :: 0 <= i < |s| && IsAlnumHyphen(s[i]) ==> !Text.IsSpace(s[i])
  {
  }

  /** Slugifying a slug changes nothing. */
  lemma SlugIdempotent(name: string)
    ensures Slugify(Slugify(name)) == Slugify(name)
  {
    var t := Slugify(name);
    SlugChars(name);
    assert forall i :: 0 <= i < |t| ==> t[i] in t;
    SlugNoDoubleUnderscore(name);
    Text.TrimNoSpace(t);
    assert Text.ToLower(t) == t;
    CollapseNoRun(t, Text.IsSpace, '_');
    forall c | c in t
      ensures Kept(c)
    {
      var i :| 0 <= i < |t| && t[i] == c;
    }
    Seqs.FilterKeepsAll(t, Kept);
    CollapseSingleUnderscores(t);
  }

  // ---------------------------------------------------------------------------
  // The import

  /** The write for one item: `setDoc(doc(db, "Devices", id), item, { merge: true })`. */
  datatype ImportWrite = ImportWrite(docId: string, data: Doc)

  /** Stands for the `TypeError` that `slugify(item.id)` throws when the id is
      not a string (`name.trim` is missing, or `item.id` is undefined or null);
      its message text is not modelled. */
  const IdNotAString := TypeError

  /** Stands for the error `doc(db, "Devices", "")` throws: the empty id
      segment is dropped, which leaves a path of one segment, and a document
      reference needs an even number. The rest of the message text is not
      modelled. */
  const EmptyDocumentId := "Invalid document reference"

  /** One iteration of the import loop: the item is written as it is, under
      the slug of its `id`. That item alone fails when the `id` is not a
      string, when its slug is empty, or when the `setDoc` is rejected
      (`failure`). */
  function ImportItem(item: Doc, failure: Option<string>): (r: Result<ImportWrite, string>)
    ensures !Get(item, "id").Str? ==> r == Err(IdNotAString)
    ensures Get(item, "id").Str? && Slugify(Get(item, "id").s) == [] ==> r == Err(EmptyDocumentId)
    ensures Get(item, "id").Str? && Slugify(Get(item, "id").s) != [] && failure.Some? ==> r == Err(failure.value)
    ensures r.Ok? <==> Get(item, "id").Str? && Slugify(Get(item, "id").s) != [] && failure.None?
    ensures r.Ok? ==> r.value.data == item && r.value.docId == Slugify(Get(item, "id").s)
  {
    match Get(item, "id")
    case Str(id) =>
      var slug := Slugify(id);
      if slug == [] then Err(EmptyDocumentId)
      else if failure.Some? then Err(failure.value)
      else Ok(ImportWrite(slug, item))
    case _ => Err(IdNotAString)
  }

  /** Every document id the import writes is non-empty, made of a-z, 0-9,
      `_` and `-`, and free of `__`, so it is never Firestore's reserved
      `__...__` form, never holds `/` and is never `.` or `..`. */
  lemma ImportedIdValid(item: Doc, failure: Option<string>)
    ensures var r := ImportItem(item, failure);
      r.Ok? ==>
        && r.value.docId != []
        && (forall c :: c in r.value.docId ==> IsSlugChar(c))
        && NoDoubleUnderscore(r.value.docId)
  {
    if Get(item, "id").Str? {
      SlugChars(Get(item, "id").s);
      SlugNoDoubleUnderscore(Get(item, "id").s);
    }
  }

  /** A string made only of characters the slug drops (neither `[\w\-]`
      nor white space, such as "!!!" or "ü") slugs to the empty string. */
  lemma DroppedOnlySlugEmpty(s: string)
    requires forall i :: 0 <= i < |s| ==> !Kept(s[i]) && !Text.IsSpace(s[i])
    ensures Slugify(s) == []
  {
    Text.TrimNoSpace(s);
    var lowered := Text.ToLower(s);
    assert forall i :: 0 <= i < |s| ==> lowered[i] == s[i];
    assert lowered == s;
    CollapseNoRun(s, Text.IsSpace, '_');
    assert forall x :: x in s ==> !Kept(x);
    Seqs.FilterKeepsNone(s, Kept);
  }

  /** So an item whose `id` is such a string fails, though the id is a
      string. */
  lemma DroppedOnlyIdFails(item: Doc, failure: Option<string>)
    requires Get(item, "id").Str?
    requires forall i :: 0 <= i < |Get(item, "id").s| ==> !Kept(Get(item, "id").s[i]) && !Text.IsSpace(Get(item, "id").s[i])
    ensures ImportItem(item, failure) == Err(EmptyDocumentId)
  {
    DroppedOnlySlugEmpty(Get(item, "id").s);
  }
}
