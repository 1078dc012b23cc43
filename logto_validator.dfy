/**
 * Validation of a Logto user profile by hand (the path taken when the schema
 * library is unavailable): an object with a non-empty string `sub`, from which
 * the string fields and an object `identities` are kept.
 */
module LogtoValidator {
  import opened Wrappers
  import opened JsValues

  /** LogtoUserProfile. */
  datatype LogtoUserProfile = LogtoUserProfile(
    id: string,
    email: Option<string>,
    name: Option<string>,
    picture: Option<string>,
    identities: Option<JsValue>)

  /** Why a profile is rejected. */
  datatype ProfileError = NotAnObject | MissingSub {
    function Message(): string {
      match this
      case NotAnObject => "Invalid user profile: not an object"
      case MissingSub => "Invalid user profile from Logto: missing sub"
    }
  }

  /** The identities field is kept only when it is truthy and typeof 'object'. */
  function IdentitiesOf(v: JsValue): (r: Option<JsValue>)
    ensures r.Some? <==> v.Obj? || v.Arr?
    ensures r.Some? ==> r.value == v
  {
    if Truthy(v) && TypeOf(v) == "object" then Some(v) else None
  }

  /** validateLogtoProfile, fallback branch. */
  function ValidateLogtoProfile(raw: JsValue): (r: Result<LogtoUserProfile, ProfileError>)
    ensures r == Err(NotAnObject) <==> TypeOf(raw) != "object" || raw.Null?
    ensures r == Err(MissingSub) <==> (raw.Obj? || raw.Arr?) && !(Member(raw, "sub").Str? && Member(raw, "sub").s != "")
    ensures r.Ok? ==> Member(raw, "sub") == Str(r.value.id) && r.value.id != ""
    ensures r.Ok? ==>
              && r.value.email == StringOrUndefined(Member(raw, "email"))
              && r.value.name == StringOrUndefined(Member(raw, "name"))
              && r.value.picture == StringOrUndefined(Member(raw, "picture"))
              && r.value.identities == IdentitiesOf(Member(raw, "identities"))
  {
    if TypeOf(raw) != "object" || raw == Null then Err(NotAnObject)
    else
      var sub := Member(raw, "sub");
      if TypeOf(sub) != "string" || |sub.s| == 0 then Err(MissingSub)
      else
        var email := StringOrUndefined(Member(raw, "email"));
        var name := StringOrUndefined(Member(raw, "name"));
        var picture := StringOrUndefined(Member(raw, "picture"));
        var identities := IdentitiesOf(Member(raw, "identities"));
        Ok(LogtoUserProfile(sub.s, email, name, picture, identities))
  }

  /** The raw object a profile is read from: its fields under their Logto names, absent ones left out. */
  function RawProfile(p: LogtoUserProfile): JsValue {
    var base := map["sub" := Str(p.id)];
    var withEmail := if p.email.Some? then base["email" := Str(p.email.value)] else base;
    var withName := if p.name.Some? then withEmail["name" := Str(p.name.value)] else withEmail;
    var withPicture := if p.picture.Some? then withName["picture" := Str(p.picture.value)] else withName;
    var all := if p.identities.Some? then withPicture["identities" := p.identities.value] else withPicture;
    Obj(all)
  }

  /** Validation reads back every well-formed profile from its raw form. */
  lemma ValidateReadsRawProfile(p: LogtoUserProfile)
    requires p.id != ""
    requires p.identities.Some? ==> p.identities.value.Obj? || p.identities.value.Arr?
    ensures ValidateLogtoProfile(RawProfile(p)) == Ok(p)
  {
    var raw := RawProfile(p);
    assert Member(raw, "sub") == Str(p.id);
    assert StringOrUndefined(Member(raw, "email")) == p.email;
    assert StringOrUndefined(Member(raw, "name")) == p.name;
    assert StringOrUndefined(Member(raw, "picture")) == p.picture;
    assert IdentitiesOf(Member(raw, "identities")) == p.identities;
  }

  /** Fields of the wrong type are dropped rather than rejected: only `sub` can make a profile invalid. */
  lemma WrongTypedFieldsAreDropped(fields: map<string, JsValue>, id: string)
    requires id != "" && "sub" in fields && fields["sub"] == Str(id)
    requires "email" in fields && fields["email"] == Num(1)
    ensures ValidateLogtoProfile(Obj(fields)).Ok?
    ensures ValidateLogtoProfile(Obj(fields)).value.email == None
  {
  }
}
