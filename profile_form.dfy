/** The profile form of src/app/user/UserProfile.jsx and its older copy
    src/app/user/page.jsx: a name, a phone, a legal and a delivery address
    and the "same as legal" switch. The two pages share every transition of
    the form and differ only in how a stored profile is loaded. Reading the
    signed-in user and the stored document, and writing the payload with
    `setDoc(..., { merge: true })`, are I/O: the user and the document are
    parameters, and the payload is returned. */
module ProfileForm {
  import opened Wrappers
  import opened Js

  const EmptyAddress: Doc := map["street" := Str(""), "city" := Str(""), "zip" := Str(""), "country" := Str("")]

  const FormFields: set<string> := {"fullName", "phone", "legal", "delivery", "sameAsLegal"}
  const PayloadFields: set<string> := {"fullName", "phone", "legal", "delivery"}

  /** The form both pages start from. */
  const InitialForm: Doc :=
    map["fullName" := Str(""), "phone" := Str(""), "legal" := Obj(EmptyAddress),
        "delivery" := Obj(EmptyAddress), "sameAsLegal" := Bool(true)]

  /** The fields `{ ...v }` copies from an object; `null` and `undefined`
      copy none. */
  function Fields(v: Value): (d: Doc)
    ensures v.Obj? ==> d == v.fields
    ensures !v.Obj? ==> d == map[]
  {
    if v.Obj? then v.fields else map[]
  }

  /** `handleChange(e, section, field)` with `e.target` = `{ name, value }`;
      `section` is `""` when the caller passes none. With a section, only
      `field` of that section changes; without one, only the field `name`. */
  function HandleChange(form: Doc, section: string, field: string, name: string, value: string): (r: Doc)
    ensures section != "" ==>
      && r.Keys == form.Keys + {section}
      && r[section].Obj?
      && r[section].fields.Keys == Fields(Get(form, section)).Keys + {field}
      && r[section].fields[field] == Str(value)
      && (forall k :: k in Fields(Get(form, section)) && k != field ==> r[section].fields[k] == Fields(Get(form, section))[k])
      && (forall k :: k in form && k != section ==> r[k] == form[k])
    ensures section == "" ==>
      && r.Keys == form.Keys + {name}
      && r[name] == Str(value)
      && (forall k :: k in form && k != name ==> r[k] == form[k])
  {
    if section != "" then
      Spread(form, map[section := Obj(Spread(Fields(Get(form, section)), map[field := Str(value)]))])
    else
      Spread(form, map[name := Str(value)])
  }

  /** `handleSameAsLegalToggle`: switching on copies the legal address into
      delivery; switching off resets delivery to the empty address. */
  function ToggleSameAsLegal(form: Doc): (r: Doc)
    ensures r.Keys == form.Keys + {"sameAsLegal", "delivery"}
    ensures r["sameAsLegal"] == Bool(!Truthy(Get(form, "sameAsLegal")))
    ensures !Truthy(Get(form, "sameAsLegal")) ==> r["delivery"] == Obj(Fields(Get(form, "legal")))
    ensures Truthy(Get(form, "sameAsLegal")) ==> r["delivery"] == Obj(EmptyAddress)
    ensures forall k :: k in form && k != "sameAsLegal" && k != "delivery" ==> r[k] == form[k]
  {
    var on := !Truthy(Get(form, "sameAsLegal"));
    Spread(form, map["sameAsLegal" := Bool(on),
                     "delivery" := if on then Obj(Fields(Get(form, "legal"))) else Obj(EmptyAddress)])
  }

  /** Switching twice restores the switch and the legal address; delivery
      then mirrors legal when the switch was on, and is empty when it was
      off. */
  lemma ToggleTwice(form: Doc)
    ensures var r := ToggleSameAsLegal(ToggleSameAsLegal(form));
            && Truthy(r["sameAsLegal"]) == Truthy(Get(form, "sameAsLegal"))
            && Get(r, "legal") == Get(form, "legal")
            && r["delivery"] == if Truthy(Get(form, "sameAsLegal")) then Obj(Fields(Get(form, "legal"))) else Obj(EmptyAddress)
  {
  }

  /** The payload of `handleSubmit`, or `None` when nobody is signed in:
      `sameAsLegal` is not saved, and delivery is the legal address while
      the switch is on. */
  function Payload(form: Doc, user: Value): (r: Option<Doc>)
    ensures r.None? <==> !Truthy(user)
    ensures r.Some? ==>
      && r.value.Keys == PayloadFields
      && r.value["fullName"] == Get(form, "fullName")
      && r.value["phone"] == Get(form, "phone")
      && r.value["legal"] == Get(form, "legal")
      && r.value["delivery"] == if Truthy(Get(form, "sameAsLegal")) then Get(form, "legal") else Get(form, "delivery")
  {
    if !Truthy(user) then None
    else
      var legal := Get(form, "legal");
      Some(map["fullName" := Get(form, "fullName"), "phone" := Get(form, "phone"), "legal" := legal,
               "delivery" := if Truthy(Get(form, "sameAsLegal")) then legal else Get(form, "delivery")])
  }

  /** While the switch is on, an edit of the legal address is what is saved
      as delivery, even though the delivery field itself kept the old copy. */
  lemma LegalEditSavedAsDelivery(form: Doc, field: string, value: string, user: Value)
    requires Truthy(Get(form, "sameAsLegal")) && Truthy(user)
    ensures var edited := HandleChange(form, "legal", field, "", value);
            && Get(edited, "delivery") == Get(form, "delivery")
            && Payload(edited, user).value["delivery"] == edited["legal"]
            && Payload(edited, user).value["delivery"].fields[field] == Str(value)
  {
  }

  /** The form a stored profile `data` loads into: missing fields take the
      defaults of the empty form, and the switch is set as each page's load
      rule decides. */
  function LoadedForm(data: Doc, sameAsLegal: bool): (r: Doc)
    ensures r.Keys == FormFields
    ensures r["fullName"] == Or(Get(data, "fullName"), Str(""))
    ensures r["phone"] == Or(Get(data, "phone"), Str(""))
    ensures r["legal"] == Or(Get(data, "legal"), Obj(EmptyAddress))
    ensures r["delivery"] == Or(Get(data, "delivery"), Obj(EmptyAddress))
    ensures r["sameAsLegal"] == Bool(sameAsLegal)
  {
    map["fullName" := Or(Get(data, "fullName"), Str("")),
        "phone" := Or(Get(data, "phone"), Str("")),
        "legal" := Or(Get(data, "legal"), Obj(EmptyAddress)),
        "delivery" := Or(Get(data, "delivery"), Obj(EmptyAddress)),
        "sameAsLegal" := Bool(sameAsLegal)]
  }

  /** The load rule of src/app/user/UserProfile.jsx: with no stored
      document the form is kept; otherwise the switch is on exactly when no
      delivery is stored or the loaded addresses have the same JSON text.
      `stringify` is `JSON.stringify`, whose output depends on the order in
      which the fields were written; that order is not modelled. */
  function ProfileLoaded(form: Doc, stored: Option<Doc>, stringify: Value -> string): (r: Doc)
    ensures stored.None? ==> r == form
    ensures stored.Some? ==>
      var data := stored.value;
      && "sameAsLegal" in r && r["sameAsLegal"].Bool?
      && r == LoadedForm(data, r["sameAsLegal"].b)
      && (r["sameAsLegal"] == Bool(true) <==>
            !Truthy(Get(data, "delivery")) || stringify(r["legal"]) == stringify(r["delivery"]))
  {
    match stored
    case None => form
    case Some(data) =>
      var legal := Or(Get(data, "legal"), Obj(EmptyAddress));
      var delivery := Or(Get(data, "delivery"), Obj(EmptyAddress));
      LoadedForm(data, !Truthy(Get(data, "delivery")) || stringify(legal) == stringify(delivery))
  }

  /** The load rule of src/app/user/page.jsx: the switch is always off
      once a stored document loads. */
  function PageLoaded(form: Doc, stored: Option<Doc>): (r: Doc)
    ensures stored.None? ==> r == form
    ensures stored.Some? ==> r == LoadedForm(stored.value, false) && !Truthy(r["sameAsLegal"])
  {
    match stored
    case None => form
    case Some(data) => LoadedForm(data, false)
  }

  /** For a stored profile with no delivery address, saving straight after
      loading keeps legal as delivery on the profile page, and writes the
      empty address as delivery on the older page. */
  lemma LoadRulesDiffer(data: Doc, stringify: Value -> string, user: Value)
    requires !Truthy(Get(data, "delivery")) && Truthy(user)
    ensures Payload(ProfileLoaded(InitialForm, Some(data), stringify), user).value["delivery"]
            == Or(Get(data, "legal"), Obj(EmptyAddress))
    ensures Payload(PageLoaded(InitialForm, Some(data)), user).value["delivery"] == Obj(EmptyAddress)
  {
  }

  /** On both pages a profile whose stored delivery equals its legal address
      saves the same delivery as it loaded. */
  lemma SameAddressesRoundTrip(data: Doc, stringify: Value -> string, user: Value)
    requires Truthy(Get(data, "delivery")) && Get(data, "legal") == Get(data, "delivery") && Truthy(user)
    ensures ProfileLoaded(InitialForm, Some(data), stringify)["sameAsLegal"] == Bool(true)
    ensures Payload(ProfileLoaded(InitialForm, Some(data), stringify), user).value["delivery"] == data["delivery"]
    ensures Payload(PageLoaded(InitialForm, Some(data)), user).value["delivery"] == data["delivery"]
  {
  }
}
