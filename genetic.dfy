/**
 * The genetic MaxSAT driver's text rewriting: a WCNF file (a "p" header line
 * whose fifth field is the top weight, then one clause per line whose first
 * field is its weight) is scanned line by line; clauses lighter than the top
 * weight are the soft ones. The counter counts them; the rewriter replaces
 * the top weight by the sum of a new weight vector and the soft weights by
 * the vector's entries, in order.
 */
module GeneticMaxSat {
  import opened Wrappers
  import opened JavaText

  /** The fields of a line: line.trim().split(" "). */
  function Tokens(line: string): seq<string>
  {
    JavaSplit(Trim(line), ' ')
  }

  /** A trimmed line always has a first field, so trimAndSplit[0] never throws. */
  lemma TokensNonEmpty(line: string)
    ensures |Tokens(line)| >= 1
  {
    TrimmedTrimIsTrim(line);
    TrimmedSplitJoin(Trim(line));
  }

  /** Joining a line's fields by spaces gives the trimmed line back. */
  lemma TokensJoin(line: string)
    ensures Join(Tokens(line), ' ') == Trim(line)
  {
    TrimmedTrimIsTrim(line);
    TrimmedSplitJoin(Trim(line));
  }

  lemma TrimmedTrimIsTrim(line: string)
    ensures Trim(Trim(line)) == Trim(line)
  {
  }

  /** How a line reads, given the top weight seen so far (0 before any header). */
  datatype LineKind = Header(top: int) | SoftClause | Other

  /** The running state of a scan: the current top weight and the soft clauses met. */
  datatype Scan = Scan(top: int, soft: nat)

  /**
   * One line's reading: a "p" line must have a fifth field holding an int;
   * after a header with a non-zero top, every other line must start with an
   * int, and it is soft when that weight is below the top.
   */
  function Classify(tokens: seq<string>, top: int): (r: Result<LineKind>)
    ensures |tokens| == 0 ==> r.Failure? && r.error.IndexOutOfBounds?
    ensures r.Success? ==> |tokens| >= 1 && (r.value.Header? ==> |tokens| > 4)
    ensures |tokens| >= 1 && tokens[0] == "p" && |tokens| <= 4 ==> r.Failure? && r.error.IndexOutOfBounds?
    ensures |tokens| >= 1 && tokens[0] == "p" && |tokens| > 4 ==>
              r == (match ParseInt(tokens[4]) case Success(t) => Success(Header(t)) case Failure(e) => Failure(e))
    ensures |tokens| >= 1 && tokens[0] != "p" && top == 0 ==> r == Success(Other)
    ensures |tokens| >= 1 && tokens[0] != "p" && top != 0 ==>
              (r.Success? <==> ParseInt(tokens[0]).Success?) &&
              (r.Success? ==> (r.value.SoftClause? <==> ParseInt(tokens[0]).value < top) && !r.value.Header?)
  {
    if |tokens| == 0 then Failure(IndexOutOfBounds("no first field"))
    else if tokens[0] == "p" then
      if |tokens| <= 4 then Failure(IndexOutOfBounds("header line has fewer than five fields"))
      else
        var t :- ParseInt(tokens[4]);
        Success(Header(t))
    else if top != 0 then
      var w :- ParseInt(tokens[0]);
      Success(if w < top then SoftClause else Other)
    else Success(Other)
  }

  function Advance(s: Scan, k: LineKind): (t: Scan)
    ensures t.soft == s.soft + (if k.SoftClause? then 1 else 0)
    ensures t.top == (if k.Header? then k.top else s.top)
  {
    match k
    case Header(top) => Scan(top, s.soft)
    case SoftClause => Scan(s.top, s.soft + 1)
    case Other => s
  }

  /** How one line moves the scan along. */
  function ScanLine(s: Scan, line: string): (r: Result<Scan>)
  {
    var k :- Classify(Tokens(line), s.top);
    Success(Advance(s, k))
  }

  /** softWeightCounter's scan over the first lines: the top weight and the soft clauses so far. */
  function Counted(lines: seq<string>): (r: Result<Scan>)
    decreases |lines|
  {
    if |lines| == 0 then Success(Scan(0, 0))
    else
      var s :- Counted(lines[..|lines| - 1]);
      ScanLine(s, lines[|lines| - 1])
  }

  /** One more line: the scan so far moved along by that line. */
  lemma CountedStep(lines: seq<string>, n: nat)
    requires n < |lines| && Counted(lines[..n]).Success?
    ensures Counted(lines[..n + 1]) == ScanLine(Counted(lines[..n]).value, lines[n])
  {
    assert lines[..n + 1][..n] == lines[..n];
  }

  /**
   * One line's fields after the rewrite: a header's fifth field becomes the
   * sum of the weights, a soft clause's weight becomes the next weight (the
   * index must be inside the array), anything else is kept.
   */
  function RewriteLine(tokens: seq<string>, k: LineKind, weights: seq<Int32>, index: nat): (r: Result<seq<string>>)
    requires |tokens| >= 1 && (k.Header? ==> |tokens| > 4)
    ensures r.Failure? <==> k.SoftClause? && index >= |weights|
    ensures r.Success? ==> |r.value| == |tokens|
    ensures r.Success? && k.Header? ==>
              r.value[4] == IntToString(SumInt32(weights)) &&
              forall j :: 0 <= j < |tokens| && j != 4 ==> r.value[j] == tokens[j]
    ensures r.Success? && k.SoftClause? ==>
              index < |weights| && r.value[0] == IntToString(weights[index]) &&
              forall j :: 1 <= j < |tokens| ==> r.value[j] == tokens[j]
    ensures k.Other? ==> r == Success(tokens)
  {
    match k
    case Header(_) => Success(tokens[4 := IntToString(SumInt32(weights))])
    case SoftClause =>
      if index < |weights| then Success(tokens[0 := IntToString(weights[index])])
      else Failure(IndexOutOfBounds("more soft clauses than weights"))
    case Other => Success(tokens)
  }

  /** One line's fields after the rewrite, given the scan of the lines before it. */
  function RewriteScanned(s: Scan, line: string, weights: seq<Int32>): (r: Result<seq<string>>)
    ensures r.Success? ==> ScanLine(s, line).Success?
  {
    var tokens := Tokens(line);
    var k :- Classify(tokens, s.top);
    RewriteLine(tokens, k, weights, s.soft)
  }

  /** changeSoftWeights' rewritten lines for the first lines, or the exception it throws. */
  function Rewritten(lines: seq<string>, weights: seq<Int32>): (r: Result<seq<string>>)
    decreases |lines|
  {
    if |lines| == 0 then Success([])
    else
      var prefix := lines[..|lines| - 1];
      var out :- Rewritten(prefix, weights);
      var s :- Counted(prefix);
      var fields :- RewriteScanned(s, lines[|lines| - 1], weights);
      Success(out + [Join(fields, ' ')])
  }

  /**
   * changeSoftWeights' result: the rewritten lines joined by newlines.
   * An input that splits into no lines at all ("\n", say) leaves the builder
   * empty, and cutting its last character throws.
   */
  function ChangedText(weights: seq<Int32>, content: string): Result<string>
  {
    var out :- Rewritten(JavaSplit(content, '\n'), weights);
    if |out| == 0 then Failure(IndexOutOfBounds("setLength(-1)"))
    else Success(Join(out, '\n'))
  }

  /** The builder's contents: each line followed by a newline. */
  function Terminated(out: seq<string>): (s: string)
  {
    if |out| == 0 then "" else Terminated(out[..|out| - 1]) + out[|out| - 1] + "\n"
  }

  lemma {:induction false} JoinAppend(a: seq<string>, x: string, c: char)
    requires |a| > 0
    ensures Join(a + [x], c) == Join(a, c) + [c] + x
  {
    if |a| == 1 {
      assert (a + [x])[1..] == [x];
    } else {
      assert (a + [x])[1..] == a[1..] + [x];
      JoinAppend(a[1..], x, c);
    }
  }

  /** Appending each line and a newline, then cutting the last character, joins the lines by newlines. */
  lemma {:induction false} TerminatedIsJoin(out: seq<string>)
    requires |out| > 0
    ensures Terminated(out) == Join(out, '\n') + "\n"
  {
    var p := out[..|out| - 1];
    if |p| == 0 {
      assert out == [out[0]];
    } else {
      TerminatedIsJoin(p);
      JoinAppend(p, out[|out| - 1], '\n');
      assert p + [out[|out| - 1]] == out;
    }
  }

  lemma CountedCons(lines: seq<string>, n: nat)
    requires n < |lines|
    ensures lines[..n + 1][..n] == lines[..n]
    ensures lines[..n + 1][n] == lines[n]
  {
  }

  /** One more line for the rewrite: the rewrite so far, extended by that line's rewrite. */
  lemma RewrittenStep(lines: seq<string>, weights: seq<Int32>, n: nat)
    requires n < |lines| && Rewritten(lines[..n], weights).Success? && Counted(lines[..n]).Success?
    ensures Rewritten(lines[..n + 1], weights) ==
            match RewriteScanned(Counted(lines[..n]).value, lines[n], weights)
            case Failure(e) => Failure(e)
            case Success(f) => Success(Rewritten(lines[..n], weights).value + [Join(f, ' ')])
  {
    assert lines[..n + 1][..n] == lines[..n];
  }

  /** A failed scan stays failed, with the same exception, however many lines follow. */
  lemma {:induction false} CountedFailureStops(lines: seq<string>, n: nat)
    requires n <= |lines| && Counted(lines[..n]).Failure?
    ensures Counted(lines) == Counted(lines[..n])
    decreases |lines| - n
  {
    if n < |lines| {
      CountedCons(lines, n);
      CountedFailureStops(lines, n + 1);
    } else {
      assert lines[..n] == lines;
    }
  }

  lemma {:induction false} RewrittenFailureStops(lines: seq<string>, weights: seq<Int32>, n: nat)
    requires n <= |lines| && Rewritten(lines[..n], weights).Failure?
    ensures Rewritten(lines, weights) == Rewritten(lines[..n], weights)
    decreases |lines| - n
  {
    if n < |lines| {
      CountedCons(lines, n);
      RewrittenFailureStops(lines, weights, n + 1);
    } else {
      assert lines[..n] == lines;
    }
  }

  /** The soft count never goes down as lines are added. */
  lemma {:induction false} CountedMonotone(lines: seq<string>, n: nat)
    requires n <= |lines| && Counted(lines).Success?
    ensures Counted(lines[..n]).Success? && Counted(lines[..n]).value.soft <= Counted(lines).value.soft
    decreases |lines| - n
  {
    if n < |lines| {
      var p := lines[..|lines| - 1];
      assert p[..n] == lines[..n];
      CountedMonotone(p, n);
    } else {
      assert lines[..n] == lines;
    }
  }

  /**
   * The rewrite succeeds exactly when the counter succeeds and finds no more
   * soft clauses than there are weights: a weight vector sized by the counter
   * never runs out.
   */
  lemma {:induction false} RewriteSucceedsIff(lines: seq<string>, weights: seq<Int32>)
    ensures Rewritten(lines, weights).Success? <==>
            Counted(lines).Success? && Counted(lines).value.soft <= |weights|
    ensures Rewritten(lines, weights).Success? ==> |Rewritten(lines, weights).value| == |lines|
  {
    if |lines| > 0 {
      var p := lines[..|lines| - 1];
      RewriteSucceedsIff(p, weights);
      if Counted(p).Success? && Counted(lines).Success? {
        assert Counted(p).value.soft <= Counted(lines).value.soft;
      }
    }
  }

  /** Rewriting the first lines gives the first rewritten lines. */
  lemma {:induction false} RewrittenPrefix(lines: seq<string>, weights: seq<Int32>, n: nat)
    requires n <= |lines| && Rewritten(lines, weights).Success?
    ensures Rewritten(lines[..n], weights).Success?
    ensures |Rewritten(lines, weights).value| == |lines|
    ensures Rewritten(lines[..n], weights).value == Rewritten(lines, weights).value[..n]
    decreases |lines| - n
  {
    RewriteSucceedsIff(lines, weights);
    if n < |lines| {
      var p := lines[..|lines| - 1];
      assert p[..n] == lines[..n];
      RewriteSucceedsIff(p, weights);
      RewrittenPrefix(p, weights, n);
      assert Rewritten(lines, weights).value[..|lines| - 1] == Rewritten(p, weights).value;
    } else {
      assert lines[..n] == lines;
    }
  }

  /**
   * What the rewrite does to line i, given the scan of the lines before it:
   * a header gets the sum of the weights as its fifth field, the j-th soft
   * clause gets weights[j] as its weight, and every other line only loses its
   * surrounding blanks.
   */
  lemma RewrittenLine(lines: seq<string>, weights: seq<Int32>, i: nat)
    requires i < |lines| && Rewritten(lines, weights).Success?
    ensures |Rewritten(lines, weights).value| == |lines| && Counted(lines[..i]).Success?
    ensures var s := Counted(lines[..i]).value;
            var tokens := Tokens(lines[i]);
            var out := Rewritten(lines, weights).value;
            Classify(tokens, s.top).Success? &&
            var k := Classify(tokens, s.top).value;
            (k.Header? ==> |tokens| > 4 && out[i] == Join(tokens[4 := IntToString(SumInt32(weights))], ' ')) &&
            (k.SoftClause? ==> s.soft < |weights| && out[i] == Join(tokens[0 := IntToString(weights[s.soft])], ' ')) &&
            (k.Other? ==> out[i] == Trim(lines[i]))
  {
    RewriteSucceedsIff(lines, weights);
    RewrittenPrefix(lines, weights, i + 1);
    CountedCons(lines, i);
    var q := lines[..i + 1];
    assert q[..i] == lines[..i];
    assert Rewritten(lines, weights).value[..i + 1][i] == Rewritten(lines, weights).value[i];
    TokensJoin(lines[i]);
  }

  /** With no lines at all the rewrite throws; otherwise it succeeds exactly as the line rewrite does. */
  lemma ChangedTextSucceedsIff(weights: seq<Int32>, content: string)
    ensures var lines := JavaSplit(content, '\n');
            ChangedText(weights, content).Success? <==>
            |lines| > 0 && Counted(lines).Success? && Counted(lines).value.soft <= |weights|
  {
    RewriteSucceedsIff(JavaSplit(content, '\n'), weights);
  }

  /** softWeightCounter's loop after the first i lines: the scan of those lines. */
  predicate CountLoop(lines: seq<string>, i: nat, s: Scan)
  {
    i <= |lines| && Counted(lines[..i]) == Success(s)
  }

  /** One turn of softWeightCounter's loop that reads its line: the scan moves on by it. */
  lemma CountLoopStep(lines: seq<string>, i: nat, s: Scan, k: LineKind)
    requires CountLoop(lines, i, s) && i < |lines|
    requires Classify(Tokens(lines[i]), s.top) == Success(k)
    ensures CountLoop(lines, i + 1, Advance(s, k))
  {
    CountedStep(lines, i);
  }

  /** A turn of softWeightCounter's loop that throws e stops the whole scan there. */
  lemma CountLoopFails(lines: seq<string>, i: nat, s: Scan, e: Error)
    requires CountLoop(lines, i, s) && i < |lines|
    requires Classify(Tokens(lines[i]), s.top) == Failure(e)
    ensures StoppedAt(lines, i, s.soft, e) && Counted(lines) == Failure(e)
  {
    CountedStep(lines, i);
    CountedFailureStops(lines, i + 1);
  }

  /**
   * changeSoftWeights' loop after the first i lines: the scan so far, the
   * rewritten lines and the builder holding each of them and a newline.
   */
  predicate RewriteLoop(lines: seq<string>, weights: seq<Int32>, i: nat, s: Scan, out: seq<string>, builder: string)
  {
    i <= |lines| && Counted(lines[..i]) == Success(s) && Rewritten(lines[..i], weights) == Success(out)
    && builder == Terminated(out) && |out| == i
  }

  /** One turn of changeSoftWeights' loop: the scan and the rewrite move on by the line. */
  lemma RewriteLoopStep(lines: seq<string>, weights: seq<Int32>, i: nat, s: Scan, out: seq<string>, builder: string,
                        k: LineKind, fields: seq<string>)
    requires RewriteLoop(lines, weights, i, s, out, builder) && i < |lines|
    requires Classify(Tokens(lines[i]), s.top) == Success(k)
    requires RewriteLine(Tokens(lines[i]), k, weights, s.soft) == Success(fields)
    ensures RewriteLoop(lines, weights, i + 1, Advance(s, k), out + [Join(fields, ' ')],
                        builder + Join(fields, ' ') + "\n")
  {
    CountedStep(lines, i);
    RewrittenStep(lines, weights, i);
    assert (out + [Join(fields, ' ')])[..|out|] == out;
  }

  /** A turn of changeSoftWeights' loop that throws ends the whole rewrite with that exception. */
  lemma RewriteLoopFails(lines: seq<string>, weights: seq<Int32>, i: nat, top: int, count: nat)
    requires i < |lines|
    requires Counted(lines[..i]) == Success(Scan(top, count))
    requires Rewritten(lines[..i], weights).Success?
    requires Classify(Tokens(lines[i]), top).Failure? ||
             RewriteLine(Tokens(lines[i]), Classify(Tokens(lines[i]), top).value, weights, count).Failure?
    ensures Classify(Tokens(lines[i]), top).Failure? ==> Rewritten(lines, weights) == Failure(Classify(Tokens(lines[i]), top).error)
    ensures Classify(Tokens(lines[i]), top).Success? ==>
              Rewritten(lines, weights) == Failure(RewriteLine(Tokens(lines[i]), Classify(Tokens(lines[i]), top).value, weights, count).error)
  {
    RewrittenStep(lines, weights, i);
    RewrittenFailureStops(lines, weights, i + 1);
  }

  /** The scan threw the exception e at line n, having counted count soft clauses before it. */
  predicate StoppedAt(lines: seq<string>, n: nat, count: int, e: Error)
  {
    n < |lines| && Counted(lines[..n]).Success? && count == Counted(lines[..n]).value.soft &&
    Counted(lines[..n + 1]) == Failure(e)
  }

  /** GeneticMaxSatSolver: the WCNF text and the number of soft clauses in it. */
  class GeneticMaxSatSolver {
    var allSoftWeightsCount: int
    var wcnfFileContent: string

    constructor()
      ensures allSoftWeightsCount == 0 && wcnfFileContent == ""
    {
      allSoftWeightsCount := 0;
      wcnfFileContent := "";
    }

    /** solve() keeps the lines of the WCNF file, joined by newlines. */
    method LoadContent(allLines: seq<string>)
      modifies this
      ensures wcnfFileContent == Join(allLines, '\n')
      ensures allSoftWeightsCount == old(allSoftWeightsCount)
    {
      wcnfFileContent := Join(allLines, '\n');
    }

    /**
     * softWeightCounter: resets the count, then counts the soft clauses; an
     * exception leaves the count of the lines scanned before the bad one.
     */
    method SoftWeightCounter() returns (r: Result<()>)
      modifies this
      ensures wcnfFileContent == old(wcnfFileContent)
      ensures var lines := JavaSplit(wcnfFileContent, '\n');
              (r.Success? <==> Counted(lines).Success?) &&
              (r.Success? ==> allSoftWeightsCount == Counted(lines).value.soft)
      ensures var lines := JavaSplit(wcnfFileContent, '\n');
              r.Failure? ==> exists n :: StoppedAt(lines, n, allSoftWeightsCount, r.error)
    {
      var count: nat := 0;
      var top := 0;
      var lines := JavaSplit(wcnfFileContent, '\n');
      var i := 0;
      r := Success(());
      while i < |lines|
        invariant 0 <= i <= |lines|
        invariant wcnfFileContent == old(wcnfFileContent)
        invariant CountLoop(lines, i, Scan(top, count))
      {
        var k := Classify(Tokens(lines[i]), top);
        if k.Failure? {
          CountLoopFails(lines, i, Scan(top, count), k.error);
          r := Failure(k.error);
          break;
        }
        CountLoopStep(lines, i, Scan(top, count), k.value);
        ghost var next := Advance(Scan(top, count), k.value);
        if k.value.Header? {
          top := k.value.top;
        } else if k.value.SoftClause? {
          count := count + 1;
        }
        assert Scan(top, count) == next;
        i := i + 1;
      }
      if r.Success? {
        assert lines[..i] == lines;
      }
      allSoftWeightsCount := count;
    }

    /**
     * changeSoftWeights: the WCNF text with the header's top weight replaced
     * by the sum of the new weights and the soft clauses' weights replaced by
     * the new weights in order.
     */
    method ChangeSoftWeights(newSoftWeights: seq<Int32>, content: string) returns (r: Result<string>)
      ensures r == ChangedText(newSoftWeights, content)
    {
      var oldTop := 0;
      var wtIndex := 0;
      var lines := JavaSplit(content, '\n');
      var builder := "";
      ghost var out: seq<string> := [];
      var i := 0;
      while i < |lines|
        invariant 0 <= i <= |lines|
        invariant RewriteLoop(lines, newSoftWeights, i, Scan(oldTop, wtIndex), out, builder)
      {
        var tokens := Tokens(lines[i]);
        var k := Classify(tokens, oldTop);
        if k.Failure? {
          RewriteLoopFails(lines, newSoftWeights, i, oldTop, wtIndex);
          return Failure(k.error);
        }
        var fields := RewriteLine(tokens, k.value, newSoftWeights, wtIndex);
        if fields.Failure? {
          RewriteLoopFails(lines, newSoftWeights, i, oldTop, wtIndex);
          return Failure(fields.error);
        }
        var line := Join(fields.value, ' ');
        RewriteLoopStep(lines, newSoftWeights, i, Scan(oldTop, wtIndex), out, builder, k.value, fields.value);
        ghost var next := Advance(Scan(oldTop, wtIndex), k.value);
        if k.value.Header? {
          oldTop := k.value.top;
        } else if k.value.SoftClause? {
          wtIndex := wtIndex + 1;
        }
        assert Scan(oldTop, wtIndex) == next;
        builder := builder + line + "\n";
        out := out + [line];
        i := i + 1;
      }
      assert lines[..i] == lines;
      if |builder| == 0 {
        return Failure(IndexOutOfBounds("setLength(-1)"));
      }
      TerminatedIsJoin(out);
      r := Success(builder[..|builder| - 1]);
    }
  }
}
