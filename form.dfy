/** Form-state reconciliation of the daily-parameters dashboard widget:
    building one form entry per loaded parameter, updating the entry of one
    parameter id, and normalising the entries into the strings that are posted.
    Every operation here is a pure transformation of immutable lists. */
module Form {

  datatype Option<T> = None | Some(value: T)

  /** The declared type of a parameter. `Text` stands for every type that is
      neither "boolean" nor "number": the component only ever compares the
      type against those two strings. */
  datatype PType = Boolean | Number | Text

  /** A parameter definition as delivered by the schema endpoint. */
  datatype Parameter = Parameter(id: string, name: string, ptype: PType)

  /** The value held by a form entry: the select widget stores a boolean,
      the text and number inputs store the typed string. */
  datatype Value = BoolV(b: bool) | StrV(s: string)

  /** The in-progress value of one parameter. */
  datatype Entry = Entry(id: string, value: Value)

  /** A calendar date, kept opaque. */
  datatype Date = Date(stamp: int)

  /** The form state: the selected date and the ordered entries. */
  datatype FormData = FormData(date: Date, data: seq<Entry>)

  /** One element of the posted `data` array: every value is a string. */
  datatype PostedEntry = PostedEntry(id: string, value: string)

  function ParamIds(ps: seq<Parameter>): (ids: seq<string>)
    ensures |ids| == |ps|
    ensures forall i :: 0 <= i < |ps| ==> ids[i] == ps[i].id
  {
    seq(|ps|, i requires 0 <= i < |ps| => ps[i].id)
  }

  function EntryIds(es: seq<Entry>): (ids: seq<string>)
    ensures |ids| == |es|
    ensures forall i :: 0 <= i < |es| ==> ids[i] == es[i].id
  {
    seq(|es|, i requires 0 <= i < |es| => es[i].id)
  }

  function PostedIds(ps: seq<PostedEntry>): (ids: seq<string>)
    ensures |ids| == |ps|
    ensures forall i :: 0 <= i < |ps| ==> ids[i] == ps[i].id
  {
    seq(|ps|, i requires 0 <= i < |ps| => ps[i].id)
  }

  /** Parameter ids are unique within a schema. */
  ghost predicate UniqueIds(ps: seq<Parameter>)
  {
    forall i, j :: 0 <= i < j < |ps| ==> ps[i].id != ps[j].id
  }

  /** The value a fresh entry starts with: `false` for a boolean parameter,
      the empty string for every other type. */
  function DefaultValue(t: PType): Value
  {
    if t == Boolean then BoolV(false) else StrV("")
  }

  /** The entries built when a schema is loaded: one per parameter, in the
      schema's order, each carrying the default of the parameter's type. */
  function InitialEntries(ps: seq<Parameter>): (r: seq<Entry>)
    ensures |r| == |ps|
    ensures forall i :: 0 <= i < |ps| ==> r[i].id == ps[i].id
    ensures forall i :: 0 <= i < |ps| ==>
              (r[i].value == BoolV(false) <==> ps[i].ptype == Boolean)
    ensures forall i :: 0 <= i < |ps| ==>
              (r[i].value == StrV("") <==> ps[i].ptype != Boolean)
  {
    if ps == [] then []
    else [Entry(ps[0].id, DefaultValue(ps[0].ptype))] + InitialEntries(ps[1..])
  }

  lemma LoadedIds(ps: seq<Parameter>)
    ensures EntryIds(InitialEntries(ps)) == ParamIds(ps)
  {
  }

  /** The entries after the user changes the value of parameter `id`: every
      entry with that id takes the new value, every other entry is kept, and
      no entry is added or removed. */
  function UpdateEntries(es: seq<Entry>, id: string, v: Value): (r: seq<Entry>)
    ensures |r| == |es|
    ensures forall i :: 0 <= i < |es| ==> r[i].id == es[i].id
    ensures forall i :: 0 <= i < |es| && es[i].id == id ==> r[i].value == v
    ensures forall i :: 0 <= i < |es| && es[i].id != id ==> r[i] == es[i]
  {
    if es == [] then []
    else
      var head := if es[0].id == id then Entry(es[0].id, v) else es[0];
      [head] + UpdateEntries(es[1..], id, v)
  }

  lemma UpdatePreservesIds(es: seq<Entry>, id: string, v: Value)
    ensures EntryIds(UpdateEntries(es, id, v)) == EntryIds(es)
  {
  }

  /** Updating an id that no entry carries changes nothing. */
  lemma UpdateAbsentIsNoOp(es: seq<Entry>, id: string, v: Value)
    requires forall i :: 0 <= i < |es| ==> es[i].id != id
    ensures UpdateEntries(es, id, v) == es
  {
  }

  /** Of two updates of the same id, the second wins. */
  lemma UpdateLastWins(es: seq<Entry>, id: string, v1: Value, v2: Value)
    ensures UpdateEntries(UpdateEntries(es, id, v1), id, v2) == UpdateEntries(es, id, v2)
  {
  }

  /** Updates of two different ids do not interfere: their order is irrelevant. */
  lemma UpdatesCommute(es: seq<Entry>, id1: string, v1: Value, id2: string, v2: Value)
    requires id1 != id2
    ensures UpdateEntries(UpdateEntries(es, id1, v1), id2, v2)
         == UpdateEntries(UpdateEntries(es, id2, v2), id1, v1)
  {
  }

  /** The first parameter whose id is `id`, or None when there is none. */
  function FindParameter(ps: seq<Parameter>, id: string): (r: Option<Parameter>)
    ensures r.None? <==> forall i :: 0 <= i < |ps| ==> ps[i].id != id
    ensures r.Some? ==> exists i :: 0 <= i < |ps| && ps[i] == r.value
                                 && (forall j :: 0 <= j < i ==> ps[j].id != id)
    ensures r.Some? ==> r.value.id == id
  {
    if ps == [] then None
    else if ps[0].id == id then Some(ps[0])
    else
      var rest := FindParameter(ps[1..], id);
      assert rest.Some? ==> exists i :: 0 <= i < |ps| && ps[i] == rest.value
                                  && (forall j :: 0 <= j < i ==> ps[j].id != id) by {
        if rest.Some? {
          var k :| 0 <= k < |ps[1..]| && ps[1..][k] == rest.value
                   && (forall j :: 0 <= j < k ==> ps[1..][j].id != id);
          assert ps[k + 1] == rest.value;
          assert forall j :: 0 <= j < k + 1 ==> ps[j].id != id by {
            forall j | 0 <= j < k + 1 ensures ps[j].id != id {
              if j > 0 { assert ps[j] == ps[1..][j - 1]; }
            }
          }
        }
      }
      rest
  }

  /** With unique ids, looking up a parameter's own id finds that parameter. */
  lemma FindOwnParameter(ps: seq<Parameter>, k: nat)
    requires UniqueIds(ps)
    requires k < |ps|
    ensures FindParameter(ps, ps[k].id) == Some(ps[k])
  {
  }

  /** JavaScript's `toString()` of a stored value. */
  function ValueToString(v: Value): string
  {
    match v
    case BoolV(b) => if b then "true" else "false"
    case StrV(s) => s
  }

  /** The posted string for a stored value, given the definition found for its
      id: a number parameter goes through the numeric conversion (left as the
      `numberToString` argument), a boolean parameter is true exactly when the
      value is the string "true" or the boolean true, and any other type, or no
      definition at all, passes the raw value's string form through. */
  function Coerce(def: Option<Parameter>, v: Value, numberToString: Value -> string): (out: string)
    ensures def.Some? && def.value.ptype == Boolean ==>
              (out == "true" <==> (v == StrV("true") || v == BoolV(true)))
              && (out == "false" <==> !(v == StrV("true") || v == BoolV(true)))
    ensures def.Some? && def.value.ptype == Number ==> out == numberToString(v)
    ensures def.None? || def.value.ptype == Text ==> out == ValueToString(v)
  {
    if def.Some? && def.value.ptype == Number then numberToString(v)
    else if def.Some? && def.value.ptype == Boolean then
      ValueToString(BoolV(v == StrV("true") || v == BoolV(true)))
    else ValueToString(v)
  }

  /** The `data` array that is posted: one string-valued element per entry,
      same ids in the same order, each value coerced by the type of the
      definition found for that entry's id. */
  function NormalizeEntries(ps: seq<Parameter>, es: seq<Entry>, numberToString: Value -> string)
    : (r: seq<PostedEntry>)
    ensures |r| == |es|
    ensures forall i :: 0 <= i < |es| ==> r[i].id == es[i].id
    ensures forall i :: 0 <= i < |es| ==>
              r[i].value == Coerce(FindParameter(ps, es[i].id), es[i].value, numberToString)
  {
    if es == [] then []
    else
      [PostedEntry(es[0].id, Coerce(FindParameter(ps, es[0].id), es[0].value, numberToString))]
      + NormalizeEntries(ps, es[1..], numberToString)
  }

  lemma NormalizePreservesIds(ps: seq<Parameter>, es: seq<Entry>, numberToString: Value -> string)
    ensures PostedIds(NormalizeEntries(ps, es, numberToString)) == EntryIds(es)
  {
  }

  /** Normalising a freshly loaded form posts "false" for every boolean
      parameter, the empty string for every text parameter and the numeric
      conversion of the empty string for every number parameter. */
  lemma NormalizeLoaded(ps: seq<Parameter>, numberToString: Value -> string, k: nat)
    requires UniqueIds(ps)
    requires k < |ps|
    ensures NormalizeEntries(ps, InitialEntries(ps), numberToString)[k]
         == PostedEntry(ps[k].id, match ps[k].ptype
                                  case Boolean => "false"
                                  case Number => numberToString(StrV(""))
                                  case Text => "")
  {
    var es := InitialEntries(ps);
    var out := NormalizeEntries(ps, es, numberToString);
    FindOwnParameter(ps, k);
    assert es[k].id == ps[k].id;
    assert out[k] == PostedEntry(ps[k].id, Coerce(Some(ps[k]), es[k].value, numberToString));
    match ps[k].ptype
    case Boolean =>
      assert es[k].value == BoolV(false);
    case Number =>
      assert es[k].value == StrV("");
    case Text =>
      assert es[k].value == StrV("");
  }

  /** What the text input stores for a text parameter is posted verbatim. */
  lemma TextRoundTrip(ps: seq<Parameter>, es: seq<Entry>, k: nat, s: string,
                      numberToString: Value -> string, i: nat)
    requires UniqueIds(ps)
    requires k < |ps| && ps[k].ptype == Text
    requires i < |es| && es[i].id == ps[k].id
    ensures NormalizeEntries(ps, UpdateEntries(es, ps[k].id, StrV(s)), numberToString)[i]
         == PostedEntry(ps[k].id, s)
  {
    FindOwnParameter(ps, k);
  }

  /** What the yes/no select stores for a boolean parameter is posted as
      "true" exactly when the user chose "true". */
  lemma BooleanRoundTrip(ps: seq<Parameter>, es: seq<Entry>, k: nat, choice: string,
                         numberToString: Value -> string, i: nat)
    requires UniqueIds(ps)
    requires k < |ps| && ps[k].ptype == Boolean
    requires i < |es| && es[i].id == ps[k].id
    ensures NormalizeEntries(ps, UpdateEntries(es, ps[k].id, BoolV(choice == "true")), numberToString)[i]
         == PostedEntry(ps[k].id, if choice == "true" then "true" else "false")
  {
    FindOwnParameter(ps, k);
  }

  /** When the entries carry exactly the ids of the schema, in its order,
      every entry finds a definition, so normalisation never takes the
      no-definition branch; with unique ids it finds the parameter at the
      same position. */
  lemma DefinitionsFound(ps: seq<Parameter>, es: seq<Entry>, i: nat)
    requires EntryIds(es) == ParamIds(ps)
    requires i < |es|
    ensures FindParameter(ps, es[i].id).Some?
    ensures UniqueIds(ps) ==> FindParameter(ps, es[i].id) == Some(ps[i])
  {
  }

  /** An update changes the posted data only at the entries of the updated id. */
  lemma NormalizeAfterUpdate(ps: seq<Parameter>, es: seq<Entry>, id: string, v: Value,
                             numberToString: Value -> string, i: nat)
    requires i < |es|
    ensures NormalizeEntries(ps, UpdateEntries(es, id, v), numberToString)[i]
         == if es[i].id == id
            then PostedEntry(id, Coerce(FindParameter(ps, id), v, numberToString))
            else NormalizeEntries(ps, es, numberToString)[i]
  {
  }

  /** A one-parameter boolean schema starts at `false` and posts "true" once
      the string "true" is stored; a number parameter posts whatever the
      numeric conversion makes of the typed text. */
  lemma Scenarios(numberToString: Value -> string)
    ensures InitialEntries([Parameter("p1", "Meditated", Boolean)]) == [Entry("p1", BoolV(false))]
    ensures NormalizeEntries([Parameter("p1", "Meditated", Boolean)], [Entry("p1", StrV("true"))], numberToString)
         == [PostedEntry("p1", "true")]
    ensures NormalizeEntries([Parameter("p2", "Pages", Number)], [Entry("p2", StrV("7"))], numberToString)
         == [PostedEntry("p2", numberToString(StrV("7")))]
    ensures NormalizeEntries([], [], numberToString) == []
  {
  }
}
