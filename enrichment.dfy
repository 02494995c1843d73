/** The enrichment helpers of internal/service/utils.go and the lookup sequence both
    versions of UserService.Create run: age, then gender, then nationality, each looked up
    by the user's name, stopping at the first failure. */
module Enrichment {
  import opened Common
  import opened HttpTransport
  import Model

  /** The three name-inference APIs, in the order Create calls them. */
  datatype Api = Agify | Genderize | Nationalize
  {
    /** The URL asked for a name: the API's fixed prefix followed by the name as it is. */
    function Url(name: string): string
    {
      match this
      case Agify => "https://api.agify.io/?name=" + name
      case Genderize => "https://api.genderize.io/?name=" + name
      case Nationalize => "https://api.nationalize.io/?name=" + name
    }
  }

  const Apis: seq<Api> := [Agify, Genderize, Nationalize]

  /** The largest value of Go's uint8, the type agify decodes the age into. */
  const MaxUint8: int := 255

  /** agify's body handling: read it, decode it, keep the age. A number that does not fit a
      uint8 is a decoding error. */
  function DecodeAge(body: Body): (r: Result<int>)
    ensures r.Ok? <==> body.Decoded? && 0 <= body.payload.age <= MaxUint8
    ensures r.Ok? ==> r.value == body.payload.age
  {
    match body
    case Unreadable(reason) => Err(ReadFailure(reason))
    case Malformed(reason) => Err(DecodeFailure(reason))
    case Decoded(p) =>
      if 0 <= p.age <= MaxUint8 then Ok(p.age) else Err(DecodeFailure("age does not fit uint8"))
  }

  /** genderize's body handling: read it, decode it, keep the gender. */
  function DecodeGender(body: Body): (r: Result<string>)
    ensures r.Ok? <==> body.Decoded?
    ensures r.Ok? ==> r.value == body.payload.gender
  {
    match body
    case Unreadable(reason) => Err(ReadFailure(reason))
    case Malformed(reason) => Err(DecodeFailure(reason))
    case Decoded(p) => Ok(p.gender)
  }

  /** nationalize's body handling: read it, decode it, keep the first country, which the
      API lists as the most probable. Indexing an empty list panics in Go; here that is the
      IndexOutOfRange error. */
  function DecodeNationality(body: Body): (r: Result<string>)
    ensures r.Ok? <==> body.Decoded? && |body.payload.countries| > 0
    ensures r.Ok? ==> r.value == body.payload.countries[0]
    ensures body.Decoded? && body.payload.countries == [] ==> r == Err(IndexOutOfRange)
  {
    match body
    case Unreadable(reason) => Err(ReadFailure(reason))
    case Malformed(reason) => Err(DecodeFailure(reason))
    case Decoded(p) => if |p.countries| == 0 then Err(IndexOutOfRange) else Ok(p.countries[0])
  }

  /** The error one step of Create stops with on this reply, if any. */
  function StepFailure(api: Api, reply: Reply): Option<Error>
  {
    if reply.Failed? then Some(TransportFailure(reply.reason))
    else match api
      case Agify => (if DecodeAge(reply.body).Err? then Some(DecodeAge(reply.body).error) else None)
      case Genderize => (if DecodeGender(reply.body).Err? then Some(DecodeGender(reply.body).error) else None)
      case Nationalize =>
        (if DecodeNationality(reply.body).Err? then Some(DecodeNationality(reply.body).error) else None)
  }

  /** agify(response, u): on success the age, and nothing else, is written into u. */
  method AgifyInto(body: Body, u: Model.UserRef) returns (err: Option<Error>)
    modifies u
    ensures DecodeAge(body).Err? ==> err == Some(DecodeAge(body).error) && u.Value() == old(u.Value())
    ensures DecodeAge(body).Ok? ==> err == None && u.Value() == old(u.Value()).(age := DecodeAge(body).value)
  {
    var info := DecodeAge(body);
    if info.Err? {
      return Some(info.error);
    }
    u.age := info.value;
    return None;
  }

  /** genderize(response, u): on success the gender, and nothing else, is written into u. */
  method GenderizeInto(body: Body, u: Model.UserRef) returns (err: Option<Error>)
    modifies u
    ensures DecodeGender(body).Err? ==> err == Some(DecodeGender(body).error) && u.Value() == old(u.Value())
    ensures DecodeGender(body).Ok? ==> err == None && u.Value() == old(u.Value()).(gender := DecodeGender(body).value)
  {
    var info := DecodeGender(body);
    if info.Err? {
      return Some(info.error);
    }
    u.gender := info.value;
    return None;
  }

  /** nationalize(response, u): on success the first country, and nothing else, is
      written into u. */
  method NationalizeInto(body: Body, u: Model.UserRef) returns (err: Option<Error>)
    modifies u
    ensures DecodeNationality(body).Err? ==> err == Some(DecodeNationality(body).error) && u.Value() == old(u.Value())
    ensures DecodeNationality(body).Ok? ==>
              err == None && u.Value() == old(u.Value()).(nationality := DecodeNationality(body).value)
  {
    var info := DecodeNationality(body);
    if info.Err? {
      return Some(info.error);
    }
    u.nationality := info.value;
    return None;
  }

  /** What the lookup sequence did: the URLs it asked for, the values it wrote (None for a
      field it never reached) and the error it stopped with. */
  datatype Outcome = Outcome(requested: seq<string>, age: Option<int>, gender: Option<string>,
                             nationality: Option<string>, failure: Option<Error>)

  /** The lookup sequence for `name` against a remote side answering `answer`. */
  function Lookup(name: string, answer: string -> Reply): (o: Outcome)
    ensures 1 <= |o.requested| <= |Apis|
    ensures forall k :: 0 <= k < |o.requested| ==> o.requested[k] == Apis[k].Url(name)
    ensures o.failure.None? <==> o.nationality.Some?
    ensures o.failure.None? ==> |o.requested| == |Apis|
    ensures (o.nationality.Some? ==> o.gender.Some?) && (o.gender.Some? ==> o.age.Some?)
  {
    var ageReply := answer(Agify.Url(name));
    if StepFailure(Agify, ageReply).Some? then
      Outcome([Agify.Url(name)], None, None, None, StepFailure(Agify, ageReply))
    else
      var age := DecodeAge(ageReply.body).value;
      var genderReply := answer(Genderize.Url(name));
      if StepFailure(Genderize, genderReply).Some? then
        Outcome([Agify.Url(name), Genderize.Url(name)], Some(age), None, None, StepFailure(Genderize, genderReply))
      else
        var gender := DecodeGender(genderReply.body).value;
        var nationalityReply := answer(Nationalize.Url(name));
        var urls := [Agify.Url(name), Genderize.Url(name), Nationalize.Url(name)];
        if StepFailure(Nationalize, nationalityReply).Some? then
          Outcome(urls, Some(age), Some(gender), None, StepFailure(Nationalize, nationalityReply))
        else
          Outcome(urls, Some(age), Some(gender), Some(DecodeNationality(nationalityReply.body).value), None)
  }

  /** The reply the remote side gives to step k of the sequence. */
  function ReplyAt(name: string, answer: string -> Reply, k: nat): Reply
    requires k < |Apis|
  {
    answer(Apis[k].Url(name))
  }

  /** The URLs are asked for in the fixed order agify, genderize, nationalize, each built
      from the name; the sequence stops right after the first failing step and reports that
      step's error; it completes exactly when no step fails. */
  lemma LookupStopsAtFirstFailure(name: string, answer: string -> Reply)
    ensures var o := Lookup(name, answer);
      && 1 <= |o.requested| <= |Apis|
      && (forall k :: 0 <= k < |o.requested| ==> o.requested[k] == Apis[k].Url(name))
      && (forall k :: 0 <= k < |o.requested| - 1 ==> StepFailure(Apis[k], ReplyAt(name, answer, k)).None?)
      && (o.failure.Some? ==> o.failure == StepFailure(Apis[|o.requested| - 1], ReplyAt(name, answer, |o.requested| - 1)))
      && (o.failure.None? <==> |o.requested| == |Apis| && StepFailure(Nationalize, ReplyAt(name, answer, 2)).None?)
  {
  }

  /** A field is written exactly when its own step and every earlier one succeed, with the
      value that step decoded: the age from agify, the gender from genderize and the first
      country from nationalize. */
  lemma LookupWritesCompletedSteps(name: string, answer: string -> Reply)
    ensures var o := Lookup(name, answer);
      && (o.age.Some? <==> StepFailure(Agify, ReplyAt(name, answer, 0)).None?)
      && (o.gender.Some? <==> o.age.Some? && StepFailure(Genderize, ReplyAt(name, answer, 1)).None?)
      && (o.nationality.Some? <==> o.gender.Some? && StepFailure(Nationalize, ReplyAt(name, answer, 2)).None?)
      && (o.failure.None? <==> o.nationality.Some?)
      && (o.age.Some? ==> o.age.value == ReplyAt(name, answer, 0).body.payload.age)
      && (o.gender.Some? ==> o.gender.value == ReplyAt(name, answer, 1).body.payload.gender)
      && (o.nationality.Some? ==> o.nationality.value == ReplyAt(name, answer, 2).body.payload.countries[0])
  {
  }

  /** An empty country list stops the sequence with IndexOutOfRange, after the age and the
      gender were written. */
  lemma EmptyCountryListFails(name: string, answer: string -> Reply)
    requires StepFailure(Agify, ReplyAt(name, answer, 0)).None?
    requires StepFailure(Genderize, ReplyAt(name, answer, 1)).None?
    requires ReplyAt(name, answer, 2).Response? && ReplyAt(name, answer, 2).body.Decoded?
    requires ReplyAt(name, answer, 2).body.payload.countries == []
    ensures Lookup(name, answer).failure == Some(IndexOutOfRange)
    ensures Lookup(name, answer).age.Some? && Lookup(name, answer).gender.Some?
    ensures Lookup(name, answer).nationality == None
  {
  }
}
