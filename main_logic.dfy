/**
 * MainLogic: the recommendation question. Its answer reads five entities,
 * buckets a recommendation score into two ranges, and its table routes to
 * its own states, to the hangup unit and to the forward unit.
 */
module MainLogic {
  import opened Wrappers
  import opened States
  import Base
  import IntText

  /** The declared entities, in the order the answer scans them. */
  const Entities: seq<string> := ["recommendation_score", "recommendation", "repeat", "wrong_time", "question"]

  /** The unit's answer categories (its `answers` enumeration). */
  datatype Category =
    | Null
    | Default
    | RangeFrom0To8
    | RangeFrom9To10
    | No
    | Maybe
    | Yes
    | Repeat
    | DontKnow
    | Busy
    | Question

  /**
   * The ValueError raised while reading a score back: the value holds an
   * `=` so `split('=')` gives more than two parts to unpack, or `int()`
   * rejects the value.
   */
  datatype ValueError = UnpackMismatch | InvalidLiteral

  const ScorePrefix := "recommendation_score="
  const LowScore := "recommendation_score[0..8]"
  const HighScore := "recommendation_score[9..]"

  /** The mapping from raw answers to categories. */
  const Answers: map<string, Category> := map[
    Base.Null := Null,
    Base.Default := Default,
    LowScore := RangeFrom0To8,
    HighScore := RangeFrom9To10,
    "recommendation=negative" := No,
    "recommendation=neutral" := Maybe,
    "recommendation=positive" := Yes,
    "repeat=True" := Repeat,
    "recommendation=dont_know" := DontKnow,
    "wrong_time=True" := Busy,
    "question=True" := Question
  ]

  /**
   * The score step of the answer: a raw answer carrying a score becomes
   * LowScore when the score is in `range(0, 9)` and HighScore otherwise;
   * any other raw answer is left as it is.
   */
  function Bucket(raw: string): Result<string, ValueError> {
    if ScorePrefix <= raw then
      var value := raw[|ScorePrefix|..];
      // The prefix holds the only '=' of the entity part, so split('=')
      // yields two parts exactly when the value holds no '='.
      if '=' in value then Err(UnpackMismatch)
      else match IntText.Parse(value)
        case None => Err(InvalidLiteral)
        case Some(n) => Ok(if 0 <= n < 9 then LowScore else HighScore)
    else Ok(raw)
  }

  /**
   * MainLogic.answer. Both reads of the base answer see the same
   * recognition result, so it is computed once.
   */
  function Answer(rec: Base.Recognition): Result<Category, ValueError> {
    match Bucket(Base.Answer(Entities, rec))
    case Err(e) => Err(e)
    case Ok(raw) => Ok(Lookup(raw))
  }

  /** `Answers.get(raw, default)`: an unmapped raw answer is `default`. */
  function Lookup(raw: string): Category {
    if raw in Answers then Answers[raw] else Default
  }

  // ---------------------------------------------------------------------
  // Reference behaviour of the answer, stated on entity values.

  function ScoreRange(n: int): Category {
    if 0 <= n <= 8 then RangeFrom0To8 else RangeFrom9To10
  }

  /** What a recommendation score value becomes. */
  function ScoreCategory(v: Base.Value): Result<Category, ValueError> {
    match v
    case Number(n) => Ok(ScoreRange(n))
    case Flag(_) => Err(InvalidLiteral)
    case Text(s) =>
      if '=' in s then Err(UnpackMismatch)
      else match IntText.Parse(s)
        case Some(n) => Ok(ScoreRange(n))
        case None => Err(InvalidLiteral)
  }

  function RecommendationCategory(v: Base.Value): Category {
    if v == Base.Text("negative") then No
    else if v == Base.Text("neutral") then Maybe
    else if v == Base.Text("positive") then Yes
    else if v == Base.Text("dont_know") then DontKnow
    else Default
  }

  /**
   * The answer by precedence: silence is `null`; a score wins over
   * everything, then `recommendation`, `repeat`, `wrong_time` and
   * `question`; a value that is not one the mapping names, or no declared
   * entity at all, is `default`.
   */
  function Expected(rec: Base.Recognition): Result<Category, ValueError> {
    if rec == map[] then Ok(Null)
    else if "recommendation_score" in rec then ScoreCategory(rec["recommendation_score"])
    else if "recommendation" in rec then Ok(RecommendationCategory(rec["recommendation"]))
    else if "repeat" in rec then Ok(if Base.IsTrue(rec["repeat"]) then Repeat else Default)
    else if "wrong_time" in rec then Ok(if Base.IsTrue(rec["wrong_time"]) then Busy else Default)
    else if "question" in rec then Ok(if Base.IsTrue(rec["question"]) then Question else Default)
    else Ok(Default)
  }

  /**
   * The answer agrees with the precedence reference on every recognition
   * result.
   */
  lemma AnswerIsExpected(rec: Base.Recognition)
    ensures Answer(rec) == Expected(rec)
  {
    if rec == map[] {
    } else if "recommendation_score" in rec {
      ScoreFirst(rec);
    } else if "recommendation" in rec {
      RecommendationFirst(rec);
    } else if "repeat" in rec {
      FlagFirst(rec, 2, "repeat", Repeat);
    } else if "wrong_time" in rec {
      FlagFirst(rec, 3, "wrong_time", Busy);
    } else if "question" in rec {
      FlagFirst(rec, 4, "question", Question);
    } else {
      assert Base.Answer(Entities, rec) == Base.Default;
    }
  }

  /** A score, when present, decides the answer alone. */
  lemma ScoreFirst(rec: Base.Recognition)
    requires "recommendation_score" in rec
    ensures Answer(rec) == ScoreCategory(rec["recommendation_score"])
  {
    assert Base.FirstAt(Entities, rec, 0);
    var v := rec["recommendation_score"];
    var raw := Base.Answer(Entities, rec);
    assert raw == ScorePrefix + Base.Format(v);
    assert raw[|ScorePrefix|..] == Base.Format(v);
    match v
    case Number(n) =>
      forall i | 0 <= i < |IntText.Show(n)| ensures IntText.Show(n)[i] != '=' {
        IntText.ShowChars(n, i);
      }
    case Flag(b) =>
      assert !IntText.IsDigit(Base.Format(v)[0]);
    case Text(_) =>
  }

  /** With no score, a `recommendation` value decides the answer. */
  lemma RecommendationFirst(rec: Base.Recognition)
    requires rec != map[] && "recommendation_score" !in rec && "recommendation" in rec
    ensures Answer(rec) == Ok(RecommendationCategory(rec["recommendation"]))
  {
    assert Base.FirstAt(Entities, rec, 1);
    var raw := Base.Answer(Entities, rec);
    var x := Base.Format(rec["recommendation"]);
    assert raw == "recommendation=" + x;
    assert raw[14] == '=' != ScorePrefix[14];
    assert Bucket(raw) == Ok(raw);
    RecommendationKeys(x);
    FormatIsWord(rec["recommendation"], x);
  }

  /** With no earlier entity, a yes/no entity gives its category when it prints as `True`. */
  lemma FlagFirst(rec: Base.Recognition, i: nat, e: string, c: Category)
    requires (e == "repeat" && c == Repeat) || (e == "wrong_time" && c == Busy) || (e == "question" && c == Question)
    requires rec != map[] && Base.FirstAt(Entities, rec, i) && Entities[i] == e
    ensures Answer(rec) == Ok(if Base.IsTrue(rec[e]) then c else Default)
  {
    var raw := Base.Answer(Entities, rec);
    var x := Base.Format(rec[e]);
    assert raw == e + "=" + x;
    assert raw[..|e|] == e;
    assert raw[2] == e[2] != ScorePrefix[2];
    assert Bucket(raw) == Ok(raw);
    Base.FormatIsTrue(rec[e]);
    FlagKeys(e, c, x);
  }

  /** A word that does not start like a number or a boolean is printed only by the text itself. */
  lemma FormatIsWord(v: Base.Value, x: string)
    requires x == Base.Format(v)
    ensures (x == "negative" || x == "neutral" || x == "positive" || x == "dont_know") ==> v.Text?
  {
    if v.Number? {
      IntText.ShowChars(v.n, 0);
    }
  }

  /** How the mapping reads `recommendation=x`. */
  lemma RecommendationKeys(x: string)
    ensures Lookup("recommendation=" + x) ==
            if x == "negative" then No
            else if x == "neutral" then Maybe
            else if x == "positive" then Yes
            else if x == "dont_know" then DontKnow
            else Default
  {
    var raw := "recommendation=" + x;
    assert |raw| >= 15 && raw[0] == 'r' && raw[14] == '=' && raw[15..] == x;
    if x == "negative" {
      assert raw == "recommendation=negative";
    } else if x == "neutral" {
      assert raw == "recommendation=neutral";
    } else if x == "positive" {
      assert raw == "recommendation=positive";
    } else if x == "dont_know" {
      assert raw == "recommendation=dont_know";
    }
  }

  /** How the mapping reads `e=x` for the three yes/no entities. */
  lemma FlagKeys(e: string, c: Category, x: string)
    requires (e == "repeat" && c == Repeat) || (e == "wrong_time" && c == Busy) || (e == "question" && c == Question)
    ensures Lookup(e + "=" + x) == if x == "True" then c else Default
  {
    if e == "repeat" {
      assert e + "=" == "repeat=";
      RepeatKey(x);
    } else if e == "wrong_time" {
      assert e + "=" == "wrong_time=";
      WrongTimeKey(x);
    } else {
      assert e + "=" == "question=";
      QuestionKey(x);
    }
  }

  lemma RepeatKey(x: string)
    ensures Lookup("repeat=" + x) == if x == "True" then Repeat else Default
  {
    var raw := "repeat=" + x;
    assert raw[0] == 'r' && raw[2] == 'p' && raw[6] == '=' && raw[7..] == x;
    if x == "True" {
      assert raw == "repeat=True";
    }
  }

  lemma WrongTimeKey(x: string)
    ensures Lookup("wrong_time=" + x) == if x == "True" then Busy else Default
  {
    var raw := "wrong_time=" + x;
    assert raw[0] == 'w' && raw[10] == '=' && raw[11..] == x;
    if x == "True" {
      assert raw == "wrong_time=True";
    }
  }

  lemma QuestionKey(x: string)
    ensures Lookup("question=" + x) == if x == "True" then Question else Default
  {
    var raw := "question=" + x;
    assert raw[0] == 'q' && raw[8] == '=' && raw[9..] == x;
    if x == "True" {
      assert raw == "question=True";
    }
  }

  // ---------------------------------------------------------------------
  // Transitions and handlers.

  /**
   * The unit's transition table: `null` and `default` escalate to
   * `hangup_null` when they repeat in the state they lead to; every other
   * category has a DEFAULT entry only.
   */
  const Transitions: Base.Table<Category, MainState, State> := map[
    Null := map[Base.DefaultKey := Some(InMain(RecommendNull)),
                Base.Exact(RecommendNull) := Some(InHangup(HangupNull))],
    Default := map[Base.DefaultKey := Some(InMain(RecommendDefault)),
                   Base.Exact(RecommendDefault) := Some(InHangup(HangupNull))],
    RangeFrom0To8 := map[Base.DefaultKey := Some(InHangup(HangupNegative))],
    RangeFrom9To10 := map[Base.DefaultKey := Some(InHangup(HangupPositive))],
    No := map[Base.DefaultKey := Some(InMain(RecommendScoreNegative))],
    Maybe := map[Base.DefaultKey := Some(InMain(RecommendScoreNeutral))],
    Yes := map[Base.DefaultKey := Some(InMain(RecommendScorePositive))],
    Repeat := map[Base.DefaultKey := Some(InMain(RecommendRepeat))],
    DontKnow := map[Base.DefaultKey := Some(InMain(RecommendRepeat2))],
    Busy := map[Base.DefaultKey := Some(InHangup(HangupWrongTime))],
    Question := map[Base.DefaultKey := Some(InForward(Forward))]
  ]

  /**
   * The transition expected from each state for each category: only
   * `null` from `recommend_null` and `default` from `recommend_default`
   * depend on the current state.
   */
  function Target(c: Category, s: MainState): State {
    match c
    case Null => if s == RecommendNull then InHangup(HangupNull) else InMain(RecommendNull)
    case Default => if s == RecommendDefault then InHangup(HangupNull) else InMain(RecommendDefault)
    case RangeFrom0To8 => InHangup(HangupNegative)
    case RangeFrom9To10 => InHangup(HangupPositive)
    case No => InMain(RecommendScoreNegative)
    case Maybe => InMain(RecommendScoreNeutral)
    case Yes => InMain(RecommendScorePositive)
    case Repeat => InMain(RecommendRepeat)
    case DontKnow => InMain(RecommendRepeat2)
    case Busy => InHangup(HangupWrongTime)
    case Question => InForward(Forward)
  }

  /** Every category has a DEFAULT entry naming a state, so no lookup ends the dialog. */
  lemma EveryCategoryHasDefault(c: Category)
    ensures c in Transitions && Base.DefaultKey in Transitions[c]
    ensures Transitions[c][Base.DefaultKey].Some?
  {
  }

  /** The lookup in the table gives the expected transition from every state. */
  lemma TransitionsMatchTarget(c: Category, s: MainState)
    ensures Base.NextAction(Transitions, c, s) == Some(Target(c, s))
  {
  }

  /** The prompt name each handler passes to `say`. */
  function Prompt(s: MainState): string {
    match s
    case RecommendMain => "recommend_main"
    case RecommendRepeat => "recommend_repeat"
    case RecommendRepeat2 => "recommend_repeat_2"
    case RecommendScoreNegative => "recommend_score_negative"
    case RecommendScoreNeutral => "recommend_score_neutral"
    case RecommendScorePositive => "recommend_score_positive"
    case RecommendNull => "recommend_null"
    case RecommendDefault => "recommend_default"
  }

  /**
   * Every handler of the unit, after its prompt: the next state the table
   * gives for what was heard, and no callback. A score that cannot be read
   * back raises the answer's ValueError.
   */
  function Handle(s: MainState, rec: Base.Recognition): (r: Result<Step, ValueError>)
    ensures r.Err? <==> Expected(rec).Err?
    ensures r.Err? ==> r.error == Expected(rec).error
    ensures r.Ok? ==> r.value == Step(Some(Target(Expected(rec).value, s)), NoCallback)
  {
    AnswerIsExpected(rec);
    match Answer(rec)
    case Err(e) => Err(e)
    case Ok(c) =>
      TransitionsMatchTarget(c, s);
      Ok(Step(Base.NextAction(Transitions, c, s), NoCallback))
  }

  /**
   * A score routes every main state to a hangup: `hangup_negative` for
   * 0 to 8, `hangup_positive` for every other value, negatives included.
   */
  lemma ScoreRoutes(rec: Base.Recognition, n: int, s: MainState)
    requires "recommendation_score" in rec && rec["recommendation_score"] == Base.Number(n)
    ensures Handle(s, rec) == Ok(Step(Some(InHangup(if 0 <= n <= 8 then HangupNegative else HangupPositive)), NoCallback))
  {
    ScoreFirst(rec);
  }

  /** A score text routes like the number `int` reads from it. */
  lemma TextScoreRoutes(rec: Base.Recognition, t: string, n: int, s: MainState)
    requires "recommendation_score" in rec && rec["recommendation_score"] == Base.Text(t)
    requires '=' !in t && IntText.Parse(t) == Some(n)
    ensures Handle(s, rec) == Ok(Step(Some(InHangup(if 0 <= n <= 8 then HangupNegative else HangupPositive)), NoCallback))
  {
    ScoreFirst(rec);
  }

  /**
   * `int`'s reading of signs and leading zeros carries over to the
   * score: "+3" is low, "-03" is high, and "-0" is zero and so low.
   */
  lemma SignedScoreTexts(s: MainState)
    ensures Handle(s, map["recommendation_score" := Base.Text("+3")])
      == Ok(Step(Some(InHangup(HangupNegative)), NoCallback))
    ensures Handle(s, map["recommendation_score" := Base.Text("-03")])
      == Ok(Step(Some(InHangup(HangupPositive)), NoCallback))
    ensures Handle(s, map["recommendation_score" := Base.Text("-0")])
      == Ok(Step(Some(InHangup(HangupNegative)), NoCallback))
  {
    assert "+3"[1..] == "3" && "-03"[1..] == "03" && "-0"[1..] == "0";
    IntText.DigitsValueLeadingZero("3");
    assert "03" == "0" + "3";
    assert IntText.Parse("+3") == Some(3);
    assert IntText.Parse("-03") == Some(-3);
    assert IntText.Parse("-0") == Some(0);
    TextScoreRoutes(map["recommendation_score" := Base.Text("+3")], "+3", 3, s);
    TextScoreRoutes(map["recommendation_score" := Base.Text("-03")], "-03", -3, s);
    TextScoreRoutes(map["recommendation_score" := Base.Text("-0")], "-0", 0, s);
  }

  /** A question, with no earlier entity, is forwarded from every main state. */
  lemma QuestionForwards(s: MainState)
    ensures Handle(s, map["question" := Base.Flag(true)]) == Ok(Step(Some(InForward(Forward)), NoCallback))
  {
    var rec := map["question" := Base.Flag(true)];
    assert "question" in rec && rec != map[];
    assert "recommendation_score" !in rec && "recommendation" !in rec && "repeat" !in rec && "wrong_time" !in rec;
    assert Expected(rec) == Ok(Question);
  }

  /**
   * An entity the unit does not declare is `default`: a first time it
   * leads to `recommend_default`, a second time to `hangup_null`.
   */
  lemma UnknownEntityEscalates(s: MainState)
    ensures Handle(s, map["dont_recognition" := Base.Flag(true)]) ==
      Ok(Step(Some(if s == RecommendDefault then InHangup(HangupNull) else InMain(RecommendDefault)), NoCallback))
  {
    var rec := map["dont_recognition" := Base.Flag(true)];
    assert "dont_recognition" in rec && rec != map[];
    assert "recommendation_score" !in rec && "recommendation" !in rec && "repeat" !in rec;
    assert "wrong_time" !in rec && "question" !in rec;
    assert Expected(rec) == Ok(Default);
  }
}
