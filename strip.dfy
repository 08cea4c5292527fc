/**
 * strip of chiki/utils.py over JSON-like values: strings lose surrounding
 * whitespace, dictionaries and lists are stripped element by element, values
 * under the keys named at the top level are kept as they are, and falsy
 * values and scalars are returned unchanged.
 */
module Strip {
  import opened Text

  datatype Json =
    | Null
    | Bool(b: bool)
    | Num(n: int)
    | Str(s: string)
    | List(items: seq<Json>)
    | Dict(entries: seq<Entry>)

  /** One key/value pair of a dictionary, in iteration order. */
  datatype Entry = Entry(key: string, value: Json)

  /** Python's `not val`: exactly the null, false, zero and empty values. */
  predicate Falsy(v: Json)
    ensures Falsy(v) <==> v in [Null, Bool(false), Num(0), Str([]), List([]), Dict([])]
  {
    match v
    case Null => true
    case Bool(b) => !b
    case Num(n) => n == 0
    case Str(s) => s == []
    case List(items) => items == []
    case Dict(entries) => entries == []
  }

  function Keys(entries: seq<Entry>): seq<string> {
    seq(|entries|, i requires 0 <= i < |entries| => entries[i].key)
  }

  /**
   * `strip(val, *args)`: `skip` holds the names in `args`; the recursive
   * calls pass none. A dictionary keeps its keys and their order, a list its
   * length, and values under skipped keys stay as they are.
   */
  function Strip(v: Json, skip: set<string>): (r: Json)
    ensures Falsy(v) ==> r == v
    ensures v.Dict? ==> r.Dict? && Keys(r.entries) == Keys(v.entries)
    ensures v.Dict? ==> forall i | 0 <= i < |v.entries| && v.entries[i].key in skip ::
      r.entries[i].value == v.entries[i].value
    ensures v.List? ==> r.List? && |r.items| == |v.items|
    ensures v.Str? ==> r == Str(Trim(v.s))
    ensures !v.Dict? && !v.List? && !v.Str? ==> r == v
  {
    if Falsy(v) then v
    else match v
      case Dict(entries) => Dict(StripEntries(entries, skip))
      case List(items) => List(StripItems(items))
      case Str(s) => Str(Trim(s))
      case _ => v
  }

  /** The list comprehension `[strip(x) for x in val]`. */
  function StripItems(items: seq<Json>): (r: seq<Json>)
    ensures |r| == |items|
    ensures forall i | 0 <= i < |items| :: r[i] == Strip(items[i], {})
  {
    if items == [] then []
    else [Strip(items[0], {})] + StripItems(items[1..])
  }

  /** The dictionary comprehension over `val.iteritems()`. */
  function StripEntries(entries: seq<Entry>, skip: set<string>): (r: seq<Entry>)
    ensures |r| == |entries|
    ensures forall i | 0 <= i < |entries| :: r[i].key == entries[i].key
    ensures forall i | 0 <= i < |entries| ::
      r[i].value == if entries[i].key in skip then entries[i].value else Strip(entries[i].value, {})
  {
    if entries == [] then []
    else
      var e := entries[0];
      [Entry(e.key, if e.key in skip then e.value else Strip(e.value, {}))] + StripEntries(entries[1..], skip)
  }

  /** Every string anywhere inside the value is trimmed. */
  predicate AllTrimmed(v: Json)
    decreases v
  {
    match v
    case Str(s) => IsTrimmed(s)
    case List(items) => forall i | 0 <= i < |items| :: AllTrimmed(items[i])
    case Dict(entries) => forall i | 0 <= i < |entries| :: AllTrimmed(entries[i].value)
    case _ => true
  }

  /** After a stripping with no skipped keys, no string inside has surrounding whitespace. */
  lemma {:induction false} StripTrimsAll(v: Json)
    ensures AllTrimmed(Strip(v, {}))
    decreases v
  {
    var r := Strip(v, {});
    if !Falsy(v) {
      match v
      case Dict(entries) =>
        forall i | 0 <= i < |entries| ensures AllTrimmed(r.entries[i].value) {
          StripTrimsAll(entries[i].value);
        }
      case List(items) =>
        forall i | 0 <= i < |items| ensures AllTrimmed(r.items[i]) {
          StripTrimsAll(items[i]);
        }
      case _ =>
    }
  }

  /**
   * After `strip(val, *args)`, everything outside the skipped top-level keys
   * is trimmed.
   */
  lemma StripTrimsOutsideSkipped(v: Json, skip: set<string>)
    ensures v.Dict? ==> forall i | 0 <= i < |v.entries| && v.entries[i].key !in skip ::
      AllTrimmed(Strip(v, skip).entries[i].value)
    ensures !v.Dict? ==> AllTrimmed(Strip(v, skip))
  {
    var r := Strip(v, skip);
    if !Falsy(v) && v.Dict? {
      forall i | 0 <= i < |v.entries| && v.entries[i].key !in skip
        ensures AllTrimmed(r.entries[i].value)
      {
        StripTrimsAll(v.entries[i].value);
      }
    } else if !v.Dict? {
      if v.List? && !Falsy(v) {
        forall i | 0 <= i < |v.items| ensures AllTrimmed(r.items[i]) {
          StripTrimsAll(v.items[i]);
        }
      }
    }
  }

  /** A value whose strings are all trimmed already is left unchanged. */
  lemma {:induction false} StripKeepsTrimmed(v: Json)
    requires AllTrimmed(v)
    ensures Strip(v, {}) == v
    decreases v
  {
    if !Falsy(v) {
      match v
      case Dict(entries) =>
        var r := Strip(v, {});
        forall i | 0 <= i < |entries| ensures r.entries[i] == entries[i] {
          StripKeepsTrimmed(entries[i].value);
        }
        assert r.entries == entries;
      case List(items) =>
        var r := Strip(v, {});
        forall i | 0 <= i < |items| ensures r.items[i] == items[i] {
          StripKeepsTrimmed(items[i]);
        }
        assert r.items == items;
      case Str(s) =>
        TrimTrimmed(s);
      case _ =>
    }
  }

  /** Stripping twice with the same skipped keys is stripping once. */
  lemma StripIdempotent(v: Json, skip: set<string>)
    ensures Strip(Strip(v, skip), skip) == Strip(v, skip)
  {
    var r := Strip(v, skip);
    StripTrimsOutsideSkipped(v, skip);
    if !Falsy(r) {
      match r
      case Dict(entries) =>
        var r2 := Strip(r, skip);
        forall i | 0 <= i < |entries| ensures r2.entries[i] == entries[i] {
          if entries[i].key !in skip {
            StripKeepsTrimmed(entries[i].value);
          }
        }
        assert r2.entries == entries;
      case _ =>
        StripKeepsTrimmed(r);
    }
  }
}
