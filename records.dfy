/**
 * Records as the resolvers see them: plain objects whose fields all hold
 * strings, kept in arrays and searched with `find`, `findIndex` and `filter`.
 */
module Records {

  /** A stored object, field name to value. */
  type Record = map<string, string>

  const IdKey: string := "id"

  datatype Option<T> = None | Some(value: T)

  /** Property access `r[key]`; `None` stands for `undefined`. */
  function Get(r: Record, key: string): Option<string>
  {
    if key in r then Some(r[key]) else None
  }

  /**
   * The comparison `r[key] === v`. Because a missing field reads as `None`,
   * two missing fields compare equal, as `undefined === undefined` does.
   */
  predicate Matches(r: Record, key: string, v: Option<string>)
  {
    Get(r, key) == v
  }

  /** `r.id == id` for a string `id`. */
  predicate HasId(r: Record, id: string)
  {
    Matches(r, IdKey, Some(id))
  }

  /** Index `i` holds the first record of `s` that matches. */
  ghost predicate IsFirst(s: seq<Record>, key: string, v: Option<string>, i: int)
  {
    0 <= i < |s| && Matches(s[i], key, v) && forall j :: 0 <= j < i ==> !Matches(s[j], key, v)
  }

  ghost predicate NoneMatch(s: seq<Record>, key: string, v: Option<string>)
  {
    forall j :: 0 <= j < |s| ==> !Matches(s[j], key, v)
  }

  /** No id occurs twice in `s` (records without an id are not constrained). */
  ghost predicate UniqueIds(s: seq<Record>)
  {
    forall i, j :: 0 <= i < |s| && 0 <= j < |s| && i != j && Get(s[i], IdKey).Some? ==>
      Get(s[i], IdKey) != Get(s[j], IdKey)
  }

  /** `s.findIndex(r => r[key] === v)`, with `None` in place of -1. */
  function IndexOf(s: seq<Record>, key: string, v: Option<string>): (r: Option<nat>)
    ensures r.Some? ==> IsFirst(s, key, v, r.value)
    ensures r.None? <==> NoneMatch(s, key, v)
  {
    if |s| == 0 then None
    else if Matches(s[0], key, v) then Some(0)
    else match IndexOf(s[1..], key, v)
      case None => None
      case Some(i) => Some(i + 1)
  }

  /**
   * `s.find(r => r[key] === v)`, with `None` for `undefined`: the record at
   * the index `findIndex` reports.
   */
  function FindBy(s: seq<Record>, key: string, v: Option<string>): (r: Option<Record>)
    ensures r == match IndexOf(s, key, v) { case None => None case Some(i) => Some(s[i]) }
    ensures r.Some? ==> r.value in s && Matches(r.value, key, v)
    ensures r.None? <==> NoneMatch(s, key, v)
  {
    if |s| == 0 then None
    else if Matches(s[0], key, v) then Some(s[0])
    else FindBy(s[1..], key, v)
  }

  /** `s.filter(r => r[key] === v)`. */
  function FilterBy(s: seq<Record>, key: string, v: Option<string>): (r: seq<Record>)
    ensures |r| <= |s|
    ensures forall x :: x in r <==> x in s && Matches(x, key, v)
  {
    if |s| == 0 then []
    else
      assert s == [s[0]] + s[1..];
      (if Matches(s[0], key, v) then [s[0]] else []) + FilterBy(s[1..], key, v)
  }

  /** `{ id: id, ...data }`: a field `id` in `data` would win over the generated one. */
  function Create(id: string, data: Record): (r: Record)
    ensures IdKey !in data ==> HasId(r, id)
    ensures r.Keys == data.Keys + {IdKey}
    ensures forall key :: key in data ==> r[key] == data[key]
  {
    map[IdKey := id] + data
  }

  /** `{ ...base, ...patch }`: every field of `patch` overwrites, every other field of `base` stays. */
  function Merge(base: Record, patch: Record): (r: Record)
    ensures r.Keys == base.Keys + patch.Keys
    ensures forall key :: key in r ==> r[key] == if key in patch then patch[key] else base[key]
  {
    base + patch
  }

  /** `s.splice(i, 1)` as a value: the record at `i` is gone, the rest keep their order. */
  function RemoveAt(s: seq<Record>, i: nat): (r: seq<Record>)
    requires i < |s|
    ensures |r| == |s| - 1
    ensures forall j :: 0 <= j < i ==> r[j] == s[j]
    ensures forall j :: i <= j < |r| ==> r[j] == s[j + 1]
    ensures multiset(r) + multiset{s[i]} == multiset(s)
  {
    assert s == s[..i] + [s[i]] + s[i + 1..];
    s[..i] + s[i + 1..]
  }

  // ----- find and filter agree; filter keeps order -----

  /** `filter` keeps array order: it distributes over concatenation. */
  lemma {:induction false} FilterByAppend(a: seq<Record>, b: seq<Record>, key: string, v: Option<string>)
    ensures FilterBy(a + b, key, v) == FilterBy(a, key, v) + FilterBy(b, key, v)
  {
    if |a| > 0 {
      assert (a + b)[1..] == a[1..] + b;
      FilterByAppend(a[1..], b, key, v);
    } else {
      assert a + b == b;
    }
  }

  /** `find` returns the head of what `filter` returns, and fails exactly when `filter` is empty. */
  lemma {:induction false} FindByIsFilterHead(s: seq<Record>, key: string, v: Option<string>)
    ensures FindBy(s, key, v) == if FilterBy(s, key, v) == [] then None else Some(FilterBy(s, key, v)[0])
  {
    if |s| > 0 && !Matches(s[0], key, v) {
      FindByIsFilterHead(s[1..], key, v);
    }
  }

  // ----- searching after a change -----

  /** Searching `s + t` finds the first match of `s`, else the first match of `t` shifted by `|s|`. */
  lemma {:induction false} IndexOfAppend(s: seq<Record>, t: seq<Record>, key: string, v: Option<string>)
    ensures IndexOf(s + t, key, v) ==
      match IndexOf(s, key, v)
      case Some(i) => Some(i)
      case None => match IndexOf(t, key, v) { case None => None case Some(j) => Some(|s| + j) }
  {
    if |s| > 0 {
      assert (s + t)[1..] == s[1..] + t;
      IndexOfAppend(s[1..], t, key, v);
    } else {
      assert s + t == t;
    }
  }

  /**
   * Overwriting the first match with a record that still matches leaves it
   * the first match.
   */
  lemma IndexOfAfterReplace(s: seq<Record>, key: string, v: Option<string>, i: nat, x: Record)
    requires IsFirst(s, key, v, i)
    requires Matches(x, key, v)
    ensures IndexOf(s[i := x], key, v) == Some(i)
  {
    assert Matches(s[i := x][i], key, v);
  }

  /** With unique ids, the record removed by id was the only one with that id. */
  lemma RemovedIdIsGone(s: seq<Record>, id: string, i: nat)
    requires UniqueIds(s)
    requires IsFirst(s, IdKey, Some(id), i)
    ensures NoneMatch(RemoveAt(s, i), IdKey, Some(id))
  {
  }

  /** Appending a record whose id is new keeps the ids unique. */
  lemma AppendKeepsUnique(s: seq<Record>, x: Record, id: string)
    requires UniqueIds(s)
    requires NoneMatch(s, IdKey, Some(id))
    requires HasId(x, id)
    ensures UniqueIds(s + [x])
  {
  }

  /** `Merge` applied twice with the same patch changes nothing more. */
  lemma MergeIdempotent(base: Record, patch: Record)
    ensures Merge(Merge(base, patch), patch) == Merge(base, patch)
  {
  }
}
