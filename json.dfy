/**
 * System.Text.Json's JsonElement as an abstract tree: objects keep their members in
 * document order, duplicates included. The raw JSON text of an object or an array
 * (JsonElement.GetRawText) belongs to the parsed document and is a parameter here.
 */
module Json {
  import opened Wrappers

  datatype Json =
    | JNull
    | JTrue
    | JFalse
    | JNumber(raw: string)
    | JString(s: string)
    | JArray(items: seq<Json>)
    | JObject(members: seq<Member>)

  datatype Member = Member(name: string, value: Json)

  /**
   * The value of the member called `name`; when the name is repeated the last such member
   * is the one matched, as JsonElement.TryGetProperty documents.
   */
  function Lookup(ms: seq<Member>, name: string): Option<Json>
  {
    if ms == [] then None
    else if ms[|ms| - 1].name == name then Some(ms[|ms| - 1].value)
    else Lookup(ms[..|ms| - 1], name)
  }

  /** Lookup finds nothing exactly when no member has the name. */
  lemma {:induction false} LookupMissing(ms: seq<Member>, name: string)
    ensures Lookup(ms, name).None? <==> forall i :: 0 <= i < |ms| ==> ms[i].name != name
    decreases |ms|
  {
    if ms != [] {
      if ms[|ms| - 1].name == name {
        assert ms[|ms| - 1].name == name;
      } else {
        var front := ms[..|ms| - 1];
        LookupMissing(front, name);
        assert forall i :: 0 <= i < |front| ==> front[i] == ms[i];
      }
    }
  }

  /** What Lookup finds is the value of a member with that name that no later member shares. */
  lemma {:induction false} LookupFindsLast(ms: seq<Member>, name: string) returns (i: nat)
    requires Lookup(ms, name).Some?
    ensures i < |ms| && ms[i].name == name && ms[i].value == Lookup(ms, name).value
    ensures forall k :: i < k < |ms| ==> ms[k].name != name
    decreases |ms|
  {
    if ms[|ms| - 1].name == name {
      i := |ms| - 1;
    } else {
      var front := ms[..|ms| - 1];
      i := LookupFindsLast(front, name);
      assert forall k :: 0 <= k < |front| ==> front[k] == ms[k];
    }
  }

  /** JsonElement.TryGetProperty: None when the member is missing; throws on a non-object. */
  function TryGetProperty(j: Json, name: string): Result<Option<Json>, Error> {
    if j.JObject? then Success(Lookup(j.members, name)) else Failure(InvalidOperation)
  }

  /** JsonElement.GetProperty: a missing member throws KeyNotFoundException. */
  function GetProperty(j: Json, name: string): Result<Json, Error> {
    match TryGetProperty(j, name)
    case Failure(e) => Failure(e)
    case Success(None) => Failure(KeyNotFound)
    case Success(Some(v)) => Success(v)
  }

  /** JsonElement.GetString: the text of a string, null for a JSON null, throws otherwise. */
  function GetString(j: Json): Result<NString, Error> {
    match j
    case JString(s) => Success(Some(s))
    case JNull => Success(None)
    case _ => Failure(InvalidOperation)
  }

  /** JsonElement.GetBoolean */
  function GetBoolean(j: Json): Result<bool, Error> {
    match j
    case JTrue => Success(true)
    case JFalse => Success(false)
    case _ => Failure(InvalidOperation)
  }

  /** JsonElement.EnumerateObject: every member in document order; throws on a non-object. */
  function EnumerateObject(j: Json): Result<seq<Member>, Error> {
    if j.JObject? then Success(j.members) else Failure(InvalidOperation)
  }

  /** JsonElement.EnumerateArray: every item in document order; throws on a non-array. */
  function EnumerateArray(j: Json): Result<seq<Json>, Error> {
    if j.JArray? then Success(j.items) else Failure(InvalidOperation)
  }

  /** Enumerable.First: the first item; throws InvalidOperationException on an empty sequence. */
  function First(items: seq<Json>): (r: Result<Json, Error>)
    ensures r.Success? <==> items != []
    ensures r.Success? ==> r.value == items[0]
  {
    if items == [] then Failure(InvalidOperation) else Success(items[0])
  }

  /**
   * JsonElement.ToString: "" for null, the unquoted text of a string, "True"/"False" for the
   * literals, the number's own text, and the raw JSON text of an object or an array.
   */
  function ToText(j: Json, rawText: Json -> string): string {
    match j
    case JNull => ""
    case JTrue => "True"
    case JFalse => "False"
    case JNumber(raw) => raw
    case JString(s) => s
    case JArray(_) => rawText(j)
    case JObject(_) => rawText(j)
  }

  /** The member lookup of an object whose member `name` is given last finds that member. */
  lemma LookupLastWins(ms: seq<Member>, name: string, v: Json)
    ensures Lookup(ms + [Member(name, v)], name) == Some(v)
  {
  }

  /** Members with other names, appended after, do not change what a name finds. */
  lemma {:induction false} LookupIgnoresOthers(ms: seq<Member>, more: seq<Member>, name: string)
    requires forall i :: 0 <= i < |more| ==> more[i].name != name
    ensures Lookup(ms + more, name) == Lookup(ms, name)
    decreases |more|
  {
    if more == [] {
      assert ms + more == ms;
    } else {
      assert (ms + more)[|ms + more| - 1] == more[|more| - 1];
      assert (ms + more)[..|ms + more| - 1] == ms + more[..|more| - 1];
      LookupIgnoresOthers(ms, more[..|more| - 1], name);
    }
  }
}
