/**
 * Z3SmtSoftConstraintEncoder: soft constraints are collected as SMT-LIB
 * "(assert-soft ...)" lines in a string buffer, returned all at once and then
 * cleared. What the per-kind encoders add for one constraint is a parameter
 * (they are abstract in this class).
 */
module Z3SoftEncoding {
  import opened Wrappers
  import opened JavaText
  import opened Constraints

  /** One addSoftConstraint call: the Z3 expression as printed, and its weight. */
  datatype SoftTerm = SoftTerm(expr: string, weight: int)

  /** The line addSoftConstraint appends. */
  function SoftLine(t: SoftTerm): string
  {
    "(assert-soft " + t.expr + " :weight " + IntToString(t.weight) + ")\n"
  }

  /** Strings one after the other. */
  function Flatten(ss: seq<string>): string
  {
    if ss == [] then "" else Flatten(ss[..|ss| - 1]) + ss[|ss| - 1]
  }

  lemma {:induction false} FlattenAppend(a: seq<string>, b: seq<string>)
    ensures Flatten(a + b) == Flatten(a) + Flatten(b)
    decreases |b|
  {
    if b == [] {
      assert a + b == a;
    } else {
      assert (a + b)[..|a + b| - 1] == a + b[..|b| - 1];
      FlattenAppend(a, b[..|b| - 1]);
    }
  }

  /** The lines of several soft terms, in order. */
  function Lines(ts: seq<SoftTerm>): string
  {
    Flatten(seq(|ts|, i requires 0 <= i < |ts| => SoftLine(ts[i])))
  }

  /** The kinds with a soft encoding: subtype, equality and inequality. */
  predicate HasSoftEncoding(c: Constraint)
  {
    c.SubtypeConstraint? || c.EqualityConstraint? || c.InequalityConstraint?
  }

  /** What each constraint adds to the buffer. */
  function Texts(cs: seq<Constraint>, encodeSoft: Constraint -> seq<SoftTerm>): (r: seq<string>)
    ensures |r| == |cs| && forall i | 0 <= i < |cs| :: r[i] == Lines(encodeSoft(cs[i]))
  {
    seq(|cs|, i requires 0 <= i < |cs| => Lines(encodeSoft(cs[i])))
  }

  /** The buffer contents the constraints produce, in order. */
  function Encoding(cs: seq<Constraint>, encodeSoft: Constraint -> seq<SoftTerm>): string
  {
    Flatten(Texts(cs, encodeSoft))
  }

  /** How many constraints are processed before the first one without a soft encoding. */
  function SupportedPrefix(cs: seq<Constraint>): (n: nat)
    ensures n <= |cs|
    ensures forall i | 0 <= i < n :: HasSoftEncoding(cs[i])
    ensures n < |cs| ==> !HasSoftEncoding(cs[n])
  {
    if cs == [] then 0
    else
      var m := SupportedPrefix(cs[..|cs| - 1]);
      if m < |cs| - 1 then m
      else if HasSoftEncoding(cs[|cs| - 1]) then |cs|
      else |cs| - 1
  }

  class Z3SmtSoftConstraintEncoder {
    var softConstraints: string
    /** What encodeSoftSubtypeConstraint, ...Equality... and ...Inequality... add for a constraint. */
    const encodeSoft: Constraint -> seq<SoftTerm>

    constructor (encodeSoft: Constraint -> seq<SoftTerm>)
      ensures softConstraints == "" && this.encodeSoft == encodeSoft
    {
      softConstraints := "";
      this.encodeSoft := encodeSoft;
    }

    method AddSoftConstraint(t: SoftTerm)
      modifies this
      ensures softConstraints == old(softConstraints) + SoftLine(t)
    {
      softConstraints := softConstraints + SoftLine(t);
    }

    /** One of the per-kind soft encoders: it adds its terms one by one. */
    method EncodeSoft(c: Constraint)
      requires HasSoftEncoding(c)
      modifies this
      ensures softConstraints == old(softConstraints) + Lines(encodeSoft(c))
    {
      var terms := encodeSoft(c);
      ghost var start := softConstraints;
      var i := 0;
      while i < |terms|
        invariant 0 <= i <= |terms|
        invariant softConstraints == start + Lines(terms[..i])
      {
        LinesStep(terms, i);
        ghost var before := softConstraints;
        AddSoftConstraint(terms[i]);
        assert softConstraints == before + SoftLine(terms[i]);
        i := i + 1;
      }
      assert terms[..i] == terms;
    }

    /**
     * encodeAndGetSoftConstraints: the buffer after every constraint is encoded,
     * after which the buffer is empty again. A constraint of another kind
     * throws and leaves in the buffer what was added before it.
     */
    method EncodeAndGetSoftConstraints(cs: seq<Constraint>) returns (r: Result<string>)
      modifies this
      ensures SupportedPrefix(cs) == |cs| ==>
                r == Success(old(softConstraints) + Encoding(cs, encodeSoft)) && softConstraints == ""
      ensures SupportedPrefix(cs) < |cs| ==>
                r.Failure? && r.error.BugInCF? &&
                softConstraints == old(softConstraints) + Encoding(cs[..SupportedPrefix(cs)], encodeSoft)
    {
      var i := 0;
      while i < |cs|
        invariant 0 <= i <= |cs|
        invariant forall j | 0 <= j < i :: HasSoftEncoding(cs[j])
        invariant softConstraints == old(softConstraints) + Encoding(cs[..i], encodeSoft)
      {
        if !HasSoftEncoding(cs[i]) {
          SupportedPrefixAt(cs, i);
          return Failure(BugInCF("Soft constraint for this kind is not supported"));
        }
        EncodingStep(cs, encodeSoft, i);
        EncodeSoft(cs[i]);
        i := i + 1;
      }
      assert cs[..i] == cs;
      SupportedPrefixAt(cs, i);
      r := Success(softConstraints);
      softConstraints := "";
    }
  }

  lemma LinesStep(ts: seq<SoftTerm>, i: nat)
    requires i < |ts|
    ensures Lines(ts[..i + 1]) == Lines(ts[..i]) + SoftLine(ts[i])
  {
    var prefix := seq(i, k requires 0 <= k < i => SoftLine(ts[..i][k]));
    assert seq(i + 1, k requires 0 <= k < i + 1 => SoftLine(ts[..i + 1][k])) == prefix + [SoftLine(ts[i])];
    FlattenAppend(prefix, [SoftLine(ts[i])]);
  }

  /** SupportedPrefix is the first index without a soft encoding. */
  lemma SupportedPrefixAt(cs: seq<Constraint>, n: nat)
    requires n <= |cs| && (forall j | 0 <= j < n :: HasSoftEncoding(cs[j]))
    requires n < |cs| ==> !HasSoftEncoding(cs[n])
    ensures SupportedPrefix(cs) == n
  {
  }

  /** The encoding of two lists one after the other is the two encodings one after the other. */
  lemma EncodingAppend(xs: seq<Constraint>, ys: seq<Constraint>, encodeSoft: Constraint -> seq<SoftTerm>)
    ensures Encoding(xs + ys, encodeSoft) == Encoding(xs, encodeSoft) + Encoding(ys, encodeSoft)
  {
    assert Texts(xs + ys, encodeSoft) == Texts(xs, encodeSoft) + Texts(ys, encodeSoft);
    FlattenAppend(Texts(xs, encodeSoft), Texts(ys, encodeSoft));
  }

  lemma EncodingStep(cs: seq<Constraint>, encodeSoft: Constraint -> seq<SoftTerm>, i: nat)
    requires i < |cs|
    ensures Encoding(cs[..i + 1], encodeSoft) == Encoding(cs[..i], encodeSoft) + Lines(encodeSoft(cs[i]))
  {
    var t := Texts(cs[..i + 1], encodeSoft);
    assert t[..i] == Texts(cs[..i], encodeSoft);
  }

  function CountChar(s: string, c: char): nat
  {
    if s == [] then 0 else CountChar(s[..|s| - 1], c) + (if s[|s| - 1] == c then 1 else 0)
  }

  lemma {:induction false} CountCharAppend(s: string, t: string, c: char)
    ensures CountChar(s + t, c) == CountChar(s, c) + CountChar(t, c)
    decreases |t|
  {
    if t == [] {
      assert s + t == s;
    } else {
      assert (s + t)[..|s + t| - 1] == s + t[..|t| - 1];
      CountCharAppend(s, t[..|t| - 1], c);
    }
  }

  lemma {:induction false} CountCharAbsent(s: string, c: char)
    requires forall i | 0 <= i < |s| :: s[i] != c
    ensures CountChar(s, c) == 0
  {
    if s != [] {
      CountCharAbsent(s[..|s| - 1], c);
    }
  }

  /** A soft line ends in the only newline it holds, when the expression has none. */
  lemma SoftLineIsOneLine(t: SoftTerm)
    requires forall i | 0 <= i < |t.expr| :: t.expr[i] != '\n'
    ensures CountChar(SoftLine(t), '\n') == 1
    ensures SoftLine(t)[|SoftLine(t)| - 1] == '\n'
  {
    var w := IntToString(t.weight);
    assert forall i | 0 <= i < |w| :: w[i] != '\n';
    CountCharAbsent("(assert-soft ", '\n');
    CountCharAbsent(t.expr, '\n');
    CountCharAbsent(" :weight ", '\n');
    CountCharAbsent(w, '\n');
    CountCharAppend("(assert-soft ", t.expr, '\n');
    CountCharAppend("(assert-soft " + t.expr, " :weight ", '\n');
    CountCharAppend("(assert-soft " + t.expr + " :weight ", w, '\n');
    CountCharAppend("(assert-soft " + t.expr + " :weight " + w, ")\n", '\n');
    assert CountChar(")\n", '\n') == 1 by {
      assert ")\n"[..1] == ")";
      assert ")"[..0] == "";
    }
  }

  /** Each soft term becomes exactly one line of the buffer. */
  lemma {:induction false} LinesCount(ts: seq<SoftTerm>)
    requires forall k | 0 <= k < |ts| :: forall i | 0 <= i < |ts[k].expr| :: ts[k].expr[i] != '\n'
    ensures CountChar(Lines(ts), '\n') == |ts|
  {
    if ts != [] {
      var init := ts[..|ts| - 1];
      assert forall k | 0 <= k < |init| :: init[k] == ts[k];
      LinesCount(init);
      LinesStep(ts, |ts| - 1);
      assert ts[..|ts|] == ts;
      SoftLineIsOneLine(ts[|ts| - 1]);
      CountCharAppend(Lines(init), SoftLine(ts[|ts| - 1]), '\n');
    }
  }
}
