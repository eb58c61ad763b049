/**
 * Marsaglia's xor128 generator ("Xorshift RNGs", Journal of Statistical
 * Software 8(14), 2003): one step maps a four-word state (x, y, z, w) to
 * (y, z, w, w1) and returns w1.
 *
 * JavaScript's `^` and `<<` yield signed 32-bit integers and `>>>` yields an
 * unsigned one; both are the same 32-bit pattern, so every word is a `bv32`
 * here and Dafny's `>>` on `bv32` is the logical (unsigned) shift.
 */
module Xorshift {

  type Word = bv32

  /** The generator state: always exactly four 32-bit words. */
  datatype State = State(x: Word, y: Word, z: Word, w: Word)

  /** What one step returns: the output word and the next state. */
  datatype Mixed = Mixed(word: Word, next: State)

  /** The fixed state used when no state is given. */
  const Bootstrap := State(123456789, 362436069, 521288629, 88675123)

  /** The word the bootstrap state produces first: the 32-bit pattern of
      the JavaScript value -593279510. */
  const FirstWord: Word := 3701687786

  /** One xor128 step: the state moves one slot to the left and the freshly
      mixed word enters in the last slot and is also the output. */
  function Step(s: State): (r: Mixed)
    ensures r.next.x == s.y && r.next.y == s.z && r.next.z == s.w
    ensures r.next.w == r.word
  {
    var t := s.x ^ (s.x << 11);
    var w1 := (s.w ^ (s.w >> 19)) ^ (t ^ (t >> 8));
    Mixed(w1, State(s.y, s.z, s.w, w1))
  }

  /** The state after `n` steps from `s`. */
  function After(s: State, n: nat): State
  {
    if n == 0 then s else Step(After(s, n - 1)).next
  }

  /** The words produced by the first `n` steps from `s`, in order. */
  function Outputs(s: State, n: nat): (out: seq<Word>)
    ensures |out| == n
  {
    if n == 0 then [] else Outputs(s, n - 1) + [Step(After(s, n - 1)).word]
  }

  /** Taking more steps only extends the output sequence. */
  lemma {:induction false} OutputsPrefix(s: State, m: nat, n: nat)
    requires m <= n
    ensures Outputs(s, m) == Outputs(s, n)[..m]
    decreases n
  {
    if m < n {
      OutputsPrefix(s, m, n - 1);
      assert Outputs(s, n)[..n - 1] == Outputs(s, n - 1);
    }
  }

  /** Steps compose: `a` steps and then `b` steps are `a + b` steps. */
  lemma {:induction false} AfterAdd(s: State, a: nat, b: nat)
    ensures After(After(s, a), b) == After(s, a + b)
    decreases b
  {
    if b > 0 {
      AfterAdd(s, a, b - 1);
    }
  }

  /** The state is a shift register of outputs: once four steps have been
      taken, it holds exactly the last four words produced. */
  lemma {:induction false} StateIsLastFourOutputs(s: State, n: nat)
    requires n >= 4
    ensures var out := Outputs(s, n);
            After(s, n) == State(out[n - 4], out[n - 3], out[n - 2], out[n - 1])
  {
    OutputsPrefix(s, n - 1, n);
    if n > 4 {
      StateIsLastFourOutputs(s, n - 1);
    } else {
      OutputsPrefix(s, 1, 4);
      OutputsPrefix(s, 2, 4);
      OutputsPrefix(s, 3, 4);
    }
  }

  // ---------------------------------------------------------------------
  // The JavaScript entry point takes a rest-parameter list: no argument or
  // `undefined` selects the bootstrap state, one array gives the state, and
  // anything else trips an assertion.

  /** One actual argument of the call. */
  datatype Arg = Undefined | Vec(v: seq<Word>)

  /** The frozen pair `[w1, [x1, y1, z1, w1]]`, or the failed assertion. */
  datatype Outcome = Ok(word: Word, vec: seq<Word>) | AssertionError

  function ToState(v: seq<Word>): State
    requires |v| == 4
  {
    State(v[0], v[1], v[2], v[3])
  }

  function ToVec(s: State): (v: seq<Word>)
    ensures |v| == 4 && ToState(v) == s
  {
    [s.x, s.y, s.z, s.w]
  }

  function CalculateXorShift128(args: seq<Arg>): (r: Outcome)
    ensures r.AssertionError? <==>
              |args| >= 2 || (|args| == 1 && args[0].Vec? && |args[0].v| != 4)
    ensures r.Ok? ==> |r.vec| == 4 && r.vec[3] == r.word
    ensures r.Ok? && |args| == 1 && args[0].Vec? ==> r.vec[..3] == args[0].v[1..]
    decreases if |args| == 0 || args[0].Undefined? then 1 else 0
  {
    if |args| >= 2 then AssertionError
    else if |args| == 0 || args[0].Undefined? then CalculateXorShift128([Vec(ToVec(Bootstrap))])
    else if |args[0].v| != 4 then AssertionError
    else
      var m := Step(ToState(args[0].v));
      Ok(m.word, ToVec(m.next))
  }

  /** Calling with no state is calling with the bootstrap state, and its
      word is a fixed reference value. */
  lemma NoArgumentIsBootstrap()
    ensures CalculateXorShift128([]) == CalculateXorShift128([Undefined])
    ensures CalculateXorShift128([]) ==
            CalculateXorShift128([Vec([123456789, 362436069, 521288629, 88675123])])
    ensures CalculateXorShift128([]) == Ok(FirstWord, ToVec(Step(Bootstrap).next))
  {
  }

  /** With an explicit four-word state the call is exactly one `Step`. */
  lemma ExplicitStateIsStep(v: seq<Word>)
    requires |v| == 4
    ensures CalculateXorShift128([Vec(v)]) ==
            Ok(Step(ToState(v)).word, ToVec(Step(ToState(v)).next))
  {
  }
}
