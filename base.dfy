/**
 * What every logic unit shares (class BaseLogic in logic.py): turning one
 * recognition result into a raw answer string, and the two-level
 * transition lookup with its DEFAULT fallback.
 */
module Base {
  import opened Wrappers
  import IntText

  /** The value of one recognised entity: a boolean, an int or a string. */
  datatype Value = Flag(b: bool) | Number(n: int) | Text(s: string)

  /**
   * One recognition result. An entity whose name is not a key has no
   * value (`result.entity(name)` is None); the result has entities when
   * the map is not empty.
   */
  type Recognition = map<string, Value>

  /** The raw answer for a silent result. */
  const Null := "null"

  /** The DEFAULT key, also the raw answer when no declared entity has a value. */
  const Default := "default"

  predicate HasEntities(rec: Recognition) {
    rec != map[]
  }

  /** How an f-string prints a value: `True`/`False`, decimal digits, or the text itself. */
  function Format(v: Value): (s: string)
    ensures v.Flag? ==> s == (if v.b then "True" else "False")
    ensures v.Number? ==> IntText.Parse(s) == Some(v.n)
    ensures v.Text? ==> s == v.s
  {
    match v
    case Flag(b) => if b then "True" else "False"
    case Number(n) => IntText.ParseShow(n); IntText.Show(n)
    case Text(s) => s
  }

  /** A value that prints as `True`. */
  predicate IsTrue(v: Value) {
    v == Flag(true) || v == Text("True")
  }

  /** A value that prints as `False`. */
  predicate IsFalse(v: Value) {
    v == Flag(false) || v == Text("False")
  }

  /** Only `True` and the text "True" print as `True`; likewise for `False`. */
  lemma FormatIsTrue(v: Value)
    ensures Format(v) == "True" <==> IsTrue(v)
    ensures Format(v) == "False" <==> IsFalse(v)
  {
    if v.Number? {
      IntText.ShowChars(v.n, 0);
    }
  }

  /** `entities[i]` is the first declared entity that has a value. */
  predicate FirstAt(entities: seq<string>, rec: Recognition, i: int) {
    0 <= i < |entities| && entities[i] in rec &&
    forall j :: 0 <= j < i ==> entities[j] !in rec
  }

  /** The scan of `for entity in self.entities`, from position `k` on. */
  function FirstIndex(entities: seq<string>, rec: Recognition, k: nat): (r: Option<nat>)
    requires k <= |entities|
    ensures r.Some? ==> k <= r.value < |entities| && entities[r.value] in rec
    ensures r.Some? ==> forall j :: k <= j < r.value ==> entities[j] !in rec
    ensures r.None? ==> forall j :: k <= j < |entities| ==> entities[j] !in rec
    decreases |entities| - k
  {
    if k == |entities| then None
    else if entities[k] in rec then Some(k)
    else FirstIndex(entities, rec, k + 1)
  }

  /**
   * BaseLogic.answer: `null` for a result without entities, otherwise
   * `entity=value` for the first declared entity that has a value, and
   * `default` when none has.
   */
  function Answer(entities: seq<string>, rec: Recognition): (r: string)
    ensures !HasEntities(rec) ==> r == Null
    ensures HasEntities(rec) && (forall j :: 0 <= j < |entities| ==> entities[j] !in rec) ==> r == Default
    ensures forall i :: HasEntities(rec) && FirstAt(entities, rec, i) ==>
              r == entities[i] + "=" + Format(rec[entities[i]])
  {
    if !HasEntities(rec) then Null
    else match FirstIndex(entities, rec, 0)
      case Some(i) => entities[i] + "=" + Format(rec[entities[i]])
      case None => Default
  }

  /** A key of a transition table's inner map: one state, or DEFAULT. */
  datatype Key<S> = Exact(state: S) | DefaultKey

  /**
   * A unit's transition table: answer category, then current state (or
   * DEFAULT), to the next state, where None ends the dialog.
   */
  type Table<A(==), S(==), T> = map<A, map<Key<S>, Option<T>>>

  /**
   * BaseLogic.next_action: the entry for the exact current state when it
   * is there and not None, otherwise the DEFAULT entry; a missing answer
   * row or a missing DEFAULT entry gives None. It never fails.
   */
  function NextAction<A(==), S(==), T>(t: Table<A, S, T>, answer: A, current: S): (r: Option<T>)
    ensures answer in t && Exact(current) in t[answer] && t[answer][Exact(current)].Some? ==>
              r == t[answer][Exact(current)]
    ensures answer in t && (Exact(current) !in t[answer] || t[answer][Exact(current)].None?) ==>
              r == (if DefaultKey in t[answer] then t[answer][DefaultKey] else None)
    ensures answer !in t ==> r == None
  {
    var transition := if answer in t then t[answer] else map[];
    if Exact(current) !in transition || transition[Exact(current)].None? then
      if DefaultKey in transition then transition[DefaultKey] else None
    else transition[Exact(current)]
  }
}
