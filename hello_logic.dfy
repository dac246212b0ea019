/**
 * HelloLogic: the greeting. Its answer reads three entities, and its
 * table routes to its own states, to the main unit's first question and to
 * the hangup unit.
 */
module HelloLogic {
  import opened Wrappers
  import opened States
  import Base

  /** The declared entities, in the order the answer scans them. */
  const Entities: seq<string> := ["confirm", "wrong_time", "repeat"]

  /** The unit's answer categories (its `answers` enumeration). */
  datatype Category = Null | Default | Yes | No | Busy | Repeat

  /** The mapping from raw answers to categories. */
  const Answers: map<string, Category> := map[
    Base.Null := Null,
    Base.Default := Default,
    "confirm=True" := Yes,
    "confirm=False" := No,
    "wrong_time=True" := Busy,
    "repeat=True" := Repeat
  ]

  /** `Answers.get(raw, default)`: an unmapped raw answer is `default`. */
  function Lookup(raw: string): Category {
    if raw in Answers then Answers[raw] else Default
  }

  /** HelloLogic.answer. */
  function Answer(rec: Base.Recognition): Category {
    Lookup(Base.Answer(Entities, rec))
  }

  /**
   * The answer by precedence: silence is `null`; `confirm` wins over
   * `wrong_time`, which wins over `repeat`; a value other than the ones
   * the mapping names, or no declared entity at all, is `default`.
   */
  function Expected(rec: Base.Recognition): Category {
    if rec == map[] then Null
    else if "confirm" in rec then
      (if Base.IsTrue(rec["confirm"]) then Yes else if Base.IsFalse(rec["confirm"]) then No else Default)
    else if "wrong_time" in rec then (if Base.IsTrue(rec["wrong_time"]) then Busy else Default)
    else if "repeat" in rec then (if Base.IsTrue(rec["repeat"]) then Repeat else Default)
    else Default
  }

  /** The answer agrees with the precedence reference on every recognition result. */
  lemma AnswerIsExpected(rec: Base.Recognition)
    ensures Answer(rec) == Expected(rec)
  {
    if rec == map[] {
    } else if "confirm" in rec {
      ConfirmFirst(rec);
    } else if "wrong_time" in rec {
      assert Base.FirstAt(Entities, rec, 1);
      FlagFirst(rec, 1, "wrong_time", Busy);
    } else if "repeat" in rec {
      assert Base.FirstAt(Entities, rec, 2);
      FlagFirst(rec, 2, "repeat", Repeat);
    } else {
      assert Base.Answer(Entities, rec) == Base.Default;
    }
  }

  /** A present `confirm` alone decides the answer. */
  lemma ConfirmFirst(rec: Base.Recognition)
    requires "confirm" in rec
    ensures Answer(rec) == if Base.IsTrue(rec["confirm"]) then Yes else if Base.IsFalse(rec["confirm"]) then No else Default
  {
    assert Base.FirstAt(Entities, rec, 0);
    var x := Base.Format(rec["confirm"]);
    assert Base.Answer(Entities, rec) == "confirm=" + x;
    Base.FormatIsTrue(rec["confirm"]);
    ConfirmKeys(x);
  }

  /** With no earlier entity, `wrong_time` or `repeat` gives its category when it prints as `True`. */
  lemma FlagFirst(rec: Base.Recognition, i: nat, e: string, c: Category)
    requires (e == "wrong_time" && c == Busy) || (e == "repeat" && c == Repeat)
    requires rec != map[] && Base.FirstAt(Entities, rec, i) && Entities[i] == e
    ensures Answer(rec) == if Base.IsTrue(rec[e]) then c else Default
  {
    var x := Base.Format(rec[e]);
    assert Base.Answer(Entities, rec) == e + "=" + x;
    Base.FormatIsTrue(rec[e]);
    FlagKeys(e, c, x);
  }

  /** How the mapping reads `confirm=x`. */
  lemma ConfirmKeys(x: string)
    ensures Lookup("confirm=" + x) == if x == "True" then Yes else if x == "False" then No else Default
  {
    var raw := "confirm=" + x;
    assert raw[0] == 'c' && raw[7] == '=' && raw[8..] == x;
    if x == "True" {
      assert raw == "confirm=True";
    } else if x == "False" {
      assert raw == "confirm=False";
    }
  }

  /** How the mapping reads `e=x` for the two yes-only entities. */
  lemma FlagKeys(e: string, c: Category, x: string)
    requires (e == "wrong_time" && c == Busy) || (e == "repeat" && c == Repeat)
    ensures Lookup(e + "=" + x) == if x == "True" then c else Default
  {
    var raw := e + "=" + x;
    assert raw[..|e|] == e && raw[|e|] == '=' && raw[|e| + 1..] == x;
    if e == "wrong_time" {
      assert raw[0] == 'w' && raw[10] == '=';
      if x == "True" {
        assert raw == "wrong_time=True";
      }
    } else {
      assert raw[0] == 'r' && raw[6] == '=';
      if x == "True" {
        assert raw == "repeat=True";
      }
    }
  }

  /**
   * The unit's transition table: `null` escalates to `hangup_null` when it
   * repeats in `hello_null`; every other category has a DEFAULT entry only.
   */
  const Transitions: Base.Table<Category, HelloState, State> := map[
    Null := map[Base.DefaultKey := Some(InHello(HelloNull)),
                Base.Exact(HelloNull) := Some(InHangup(HangupNull))],
    Default := map[Base.DefaultKey := Some(InMain(RecommendMain))],
    Yes := map[Base.DefaultKey := Some(InMain(RecommendMain))],
    No := map[Base.DefaultKey := Some(InHangup(HangupWrongTime))],
    Busy := map[Base.DefaultKey := Some(InHangup(HangupWrongTime))],
    Repeat := map[Base.DefaultKey := Some(InHello(HelloRepeat))]
  ]

  /** The transition expected from each state for each category. */
  function Target(c: Category, s: HelloState): State {
    match c
    case Null => if s == HelloNull then InHangup(HangupNull) else InHello(HelloNull)
    case Default => InMain(RecommendMain)
    case Yes => InMain(RecommendMain)
    case No => InHangup(HangupWrongTime)
    case Busy => InHangup(HangupWrongTime)
    case Repeat => InHello(HelloRepeat)
  }

  /** Every category has a DEFAULT entry naming a state, so no lookup ends the dialog. */
  lemma EveryCategoryHasDefault(c: Category)
    ensures c in Transitions && Base.DefaultKey in Transitions[c]
    ensures Transitions[c][Base.DefaultKey].Some?
  {
  }

  /** The lookup in the table gives the expected transition from every state. */
  lemma TransitionsMatchTarget(c: Category, s: HelloState)
    ensures Base.NextAction(Transitions, c, s) == Some(Target(c, s))
  {
  }

  /** The prompt name each handler passes to `say`. */
  function Prompt(s: HelloState): string {
    match s
    case Hello => "hello"
    case HelloRepeat => "hello_repeat"
    case HelloNull => "hello_null"
  }

  /**
   * Every handler of the unit, after its prompt: the next state the table
   * gives for what was heard, and no callback.
   */
  function Handle(s: HelloState, rec: Base.Recognition): (r: Step)
    ensures r == Step(Some(Target(Expected(rec), s)), NoCallback)
  {
    AnswerIsExpected(rec);
    TransitionsMatchTarget(Answer(rec), s);
    Step(Base.NextAction(Transitions, Answer(rec), s), NoCallback)
  }

  /**
   * Silence leads to `hello_null` from `hello` and `hello_repeat`, and to
   * `hangup_null` when it repeats in `hello_null`.
   */
  lemma SilenceEscalates(s: HelloState)
    ensures Handle(s, map[]) ==
      Step(Some(if s == HelloNull then InHangup(HangupNull) else InHello(HelloNull)), NoCallback)
  {
  }

  /** `confirm` decides before `wrong_time` and `repeat`, whatever they hold. */
  lemma ConfirmWins(rec: Base.Recognition, s: HelloState)
    requires "confirm" in rec && Base.IsTrue(rec["confirm"])
    ensures Handle(s, rec) == Step(Some(InMain(RecommendMain)), NoCallback)
  {
  }
}
