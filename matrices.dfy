/**
 * generateMatrixProblem: two square matrices of drawn entries around a drawn
 * operator, in the bracketed text form the rest of the server passes around.
 */
module Matrices {
  import opened Text


  /** The entries of a row as numbers. */
  function EntryTexts(row: seq<nat>): (r: seq<string>)
    ensures |r| == |row|
  {
    seq(|row|, j requires 0 <= j < |row| => NatToString(row[j]))
  }

  /** A row is its entries between brackets, separated by commas. */
  function RowText(row: seq<nat>): string
  {
    "[" + Join(EntryTexts(row), ",") + "]"
  }

  function RowTexts(m: seq<seq<nat>>): (r: seq<string>)
    ensures |r| == |m|
  {
    seq(|m|, i requires 0 <= i < |m| => RowText(m[i]))
  }

  /** A matrix is its rows separated by commas. */
  function MatrixText(m: seq<seq<nat>>): string
  {
    Join(RowTexts(m), ",")
  }

  const MatrixOps: seq<string> := ["+", "*"]

  /** "[[" matrix "]]" operator "[[" matrix "]]" */
  function MatrixProblem(m1: seq<seq<nat>>, m2: seq<seq<nat>>, op: string): string
  {
    "[[" + MatrixText(m1) + "]]" + op + "[[" + MatrixText(m2) + "]]"
  }

  /** n rows of n entries each. */
  predicate Square(m: seq<seq<nat>>, n: nat)
  {
    |m| == n && forall i :: 0 <= i < n ==> |m[i]| == n
  }

  /** The first i parts of a list joined, with the separator the loop writes after every part but the last. */
  function JoinedSoFar(xs: seq<string>, i: nat, sep: string): string
    requires i <= |xs|
  {
    Join(xs[..i], sep) + (if 0 < i < |xs| then sep else "")
  }

  /** Writing part i, then the separator unless it is the last, extends what the loop has written. */
  lemma JoinedSoFarStep(xs: seq<string>, i: nat, sep: string)
    requires i < |xs|
    ensures JoinedSoFar(xs, i + 1, sep) == JoinedSoFar(xs, i, sep) + xs[i] + (if i < |xs| - 1 then sep else "")
  {
    if i == 0 {
      assert xs[..1] == [xs[0]];
    } else {
      assert xs[..i + 1] == xs[..i] + [xs[i]];
      JoinSnoc(xs[..i], xs[i], sep);
    }
  }

  /** All parts written: the joined list. */
  lemma JoinedSoFarDone(xs: seq<string>, sep: string)
    ensures JoinedSoFar(xs, |xs|, sep) == Join(xs, sep)
  {
    assert xs[..|xs|] == xs;
  }

  /** One round of either loop: part i, then the separator unless it is the last. */
  lemma WriteFollows(xs: seq<string>, i: nat, sep: string, base: string, before: string, after: string)
    requires i < |xs| && before == base + JoinedSoFar(xs, i, sep)
    requires after == before + xs[i] + (if i < |xs| - 1 then sep else "")
    ensures after == base + JoinedSoFar(xs, i + 1, sep)
  {
    JoinedSoFarStep(xs, i, sep);
  }

  /**
   * The inner loop of generateMatrixProblem: row i of both matrices, entry by
   * entry, each entry but the last followed by a comma.
   */
  method WriteEntries(matrix1: string, matrix2: string, row1: seq<nat>, row2: seq<nat>, size: nat)
    returns (out1: string, out2: string)
    requires |row1| == size && |row2| == size
    ensures out1 == matrix1 + Join(EntryTexts(row1), ",")
    ensures out2 == matrix2 + Join(EntryTexts(row2), ",")
  {
    out1, out2 := matrix1, matrix2;
    ghost var entries1, entries2 := EntryTexts(row1), EntryTexts(row2);
    for j := 0 to size
      invariant out1 == matrix1 + JoinedSoFar(entries1, j, ",")
      invariant out2 == matrix2 + JoinedSoFar(entries2, j, ",")
    {
      ghost var before1, before2 := out1, out2;
      out1 := out1 + NatToString(row1[j]);
      out2 := out2 + NatToString(row2[j]);
      if j < size - 1 {
        out1 := out1 + ",";
        out2 := out2 + ",";
      }
      assert entries1[j] == NatToString(row1[j]) && entries2[j] == NatToString(row2[j]);
      WriteFollows(entries1, j, ",", matrix1, before1, out1);
      WriteFollows(entries2, j, ",", matrix2, before2, out2);
    }
    JoinedSoFarDone(entries1, ",");
    JoinedSoFarDone(entries2, ",");
  }

  /** One round of the outer loop: '[', the entries, ']', then a comma unless it is the last row. */
  lemma RowWritten(m: seq<seq<nat>>, i: nat, done: string, opening: string, filled: string, closed: string, after: string)
    requires i < |m| && done == JoinedSoFar(RowTexts(m), i, ",")
    requires opening == done + "[" && filled == opening + Join(EntryTexts(m[i]), ",") && closed == filled + "]"
    requires after == closed + (if i < |m| - 1 then "," else "")
    ensures after == JoinedSoFar(RowTexts(m), i + 1, ",")
  {
    assert closed == done + RowText(m[i]);
    WriteFollows(RowTexts(m), i, ",", "", done, after);
  }

  method GenerateMatrixProblem(size: nat, m1: seq<seq<nat>>, m2: seq<seq<nat>>, opIndex: nat) returns (problem: string)
    requires Square(m1, size) && Square(m2, size) && opIndex < |MatrixOps|
    ensures problem == MatrixProblem(m1, m2, MatrixOps[opIndex])
  {
    var matrix1, matrix2 := "", "";
    for i := 0 to size
      invariant matrix1 == JoinedSoFar(RowTexts(m1), i, ",")
      invariant matrix2 == JoinedSoFar(RowTexts(m2), i, ",")
    {
      ghost var done1, done2 := matrix1, matrix2;
      matrix1 := matrix1 + "[";
      matrix2 := matrix2 + "[";
      ghost var opening1, opening2 := matrix1, matrix2;
      matrix1, matrix2 := WriteEntries(matrix1, matrix2, m1[i], m2[i], size);
      ghost var filled1, filled2 := matrix1, matrix2;
      matrix1 := matrix1 + "]";
      matrix2 := matrix2 + "]";
      ghost var closed1, closed2 := matrix1, matrix2;
      if i < size - 1 {
        matrix1 := matrix1 + ",";
        matrix2 := matrix2 + ",";
      }
      RowWritten(m1, i, done1, opening1, filled1, closed1, matrix1);
      RowWritten(m2, i, done2, opening2, filled2, closed2, matrix2);
    }
    JoinedSoFarDone(RowTexts(m1), ",");
    JoinedSoFarDone(RowTexts(m2), ",");
    var op := MatrixOps[opIndex];
    problem := "[[" + matrix1 + "]]" + op + "[[" + matrix2 + "]]";
  }

  // ---------------------------------------------------------------------------
  // What the generated text looks like
  // ---------------------------------------------------------------------------

  /** The characters a matrix problem may hold: digits, ',', '[', ']', '+' and '*'. */
  const MatrixSymbols: set<char> := {'0', '1', '2', '3', '4', '5', '6', '7', '8', '9', ',', '[', ']', '+', '*'}

  /** Every entry drawn in 1..9. */
  predicate EntriesInRange(m: seq<seq<nat>>)
  {
    forall i, j :: 0 <= i < |m| && 0 <= j < |m[i]| ==> 1 <= m[i][j] <= 9
  }

  lemma WithinConcat(a: string, b: string, cs: set<char>)
    requires Within(a, cs) && Within(b, cs)
    ensures Within(a + b, cs)
  {
    forall i | 0 <= i < |a + b| ensures (a + b)[i] in cs {
      if i >= |a| {
        assert (a + b)[i] == b[i - |a|];
      }
    }
  }

  lemma RowChars(row: seq<nat>)
    ensures Within(RowText(row), MatrixSymbols)
  {
    var entries := EntryTexts(row);
    forall j | 0 <= j < |entries| ensures Within(entries[j], MatrixSymbols) {
      assert entries[j] == NatToString(row[j]);
    }
    JoinWithin(entries, ",", MatrixSymbols);
    WithinConcat("[", Join(entries, ","), MatrixSymbols);
    WithinConcat("[" + Join(entries, ","), "]", MatrixSymbols);
  }

  lemma MatrixChars(m: seq<seq<nat>>)
    ensures Within(MatrixText(m), MatrixSymbols)
  {
    var rows := RowTexts(m);
    forall i | 0 <= i < |rows| ensures Within(rows[i], MatrixSymbols) {
      RowChars(m[i]);
    }
    JoinWithin(rows, ",", MatrixSymbols);
  }

  /** A generated problem holds only digits, ',', '[', ']', '+' and '*'. */
  lemma MatrixProblemChars(m1: seq<seq<nat>>, m2: seq<seq<nat>>, op: string)
    requires op in MatrixOps
    ensures Within(MatrixProblem(m1, m2, op), MatrixSymbols)
  {
    var t1, t2 := MatrixText(m1), MatrixText(m2);
    MatrixChars(m1);
    MatrixChars(m2);
    assert Within("[[", MatrixSymbols) && Within("]]", MatrixSymbols) && Within(op, MatrixSymbols);
    WithinConcat("[[", t1, MatrixSymbols);
    WithinConcat("[[" + t1, "]]", MatrixSymbols);
    WithinConcat("[[" + t1 + "]]", op, MatrixSymbols);
    WithinConcat("[[" + t1 + "]]" + op, "[[", MatrixSymbols);
    WithinConcat("[[" + t1 + "]]" + op + "[[", t2, MatrixSymbols);
    WithinConcat("[[" + t1 + "]]" + op + "[[" + t2, "]]", MatrixSymbols);
  }

  /** Every run of digits is one digit other than '0': every number written is in 1..9. */
  predicate SingleDigitNumbers(s: string)
  {
    forall i :: 0 <= i < |s| && IsDigit(s[i]) ==> s[i] != '0' && (i + 1 == |s| || !IsDigit(s[i + 1]))
  }

  lemma SingleDigitConcat(a: string, b: string)
    requires SingleDigitNumbers(a) && SingleDigitNumbers(b)
    requires |a| == 0 || |b| == 0 || !IsDigit(a[|a| - 1]) || !IsDigit(b[0])
    ensures SingleDigitNumbers(a + b)
  {
    forall i | 0 <= i < |a + b| && IsDigit((a + b)[i])
      ensures (a + b)[i] != '0' && (i + 1 == |a + b| || !IsDigit((a + b)[i + 1]))
    {
      if i < |a| {
        assert (a + b)[i] == a[i];
        if i + 1 < |a| {
          assert (a + b)[i + 1] == a[i + 1];
        } else if i + 1 < |a + b| {
          assert (a + b)[i + 1] == b[0];
        }
      } else {
        assert (a + b)[i] == b[i - |a|];
        if i + 1 < |a + b| {
          assert (a + b)[i + 1] == b[i + 1 - |a|];
        }
      }
    }
  }

  /** Parts without digit runs longer than one, joined by a separator that opens and closes with a non-digit. */
  lemma {:induction false} SingleDigitJoin(xs: seq<string>, sep: string)
    requires |sep| == 1 && !IsDigit(sep[0])
    requires forall i :: 0 <= i < |xs| ==> SingleDigitNumbers(xs[i])
    ensures SingleDigitNumbers(Join(xs, sep))
    decreases |xs|
  {
    if |xs| > 1 {
      SingleDigitJoin(xs[1..], sep);
      SingleDigitConcat(xs[0], sep);
      SingleDigitConcat(xs[0] + sep, Join(xs[1..], sep));
    }
  }

  lemma RowSingleDigits(row: seq<nat>)
    requires forall j :: 0 <= j < |row| ==> 1 <= row[j] <= 9
    ensures SingleDigitNumbers(RowText(row))
  {
    var entries := EntryTexts(row);
    forall j | 0 <= j < |entries| ensures SingleDigitNumbers(entries[j]) {
      assert entries[j] == NatToString(row[j]) == [DigitChar(row[j])];
    }
    SingleDigitJoin(entries, ",");
    SingleDigitConcat("[", Join(entries, ","));
    SingleDigitConcat("[" + Join(entries, ","), "]");
  }

  lemma MatrixSingleDigits(m: seq<seq<nat>>)
    requires EntriesInRange(m)
    ensures SingleDigitNumbers(MatrixText(m))
  {
    var rows := RowTexts(m);
    forall i | 0 <= i < |rows| ensures SingleDigitNumbers(rows[i]) {
      RowSingleDigits(m[i]);
    }
    SingleDigitJoin(rows, ",");
  }

  /** With entries drawn in 1..9, every number in a generated problem is in 1..9. */
  lemma MatrixProblemNumbers(m1: seq<seq<nat>>, m2: seq<seq<nat>>, op: string)
    requires EntriesInRange(m1) && EntriesInRange(m2) && op in MatrixOps
    ensures SingleDigitNumbers(MatrixProblem(m1, m2, op))
  {
    var t1, t2 := MatrixText(m1), MatrixText(m2);
    MatrixSingleDigits(m1);
    MatrixSingleDigits(m2);
    SingleDigitConcat("[[", t1);
    SingleDigitConcat("[[" + t1, "]]");
    SingleDigitConcat("[[" + t1 + "]]", op);
    SingleDigitConcat("[[" + t1 + "]]" + op, "[[");
    SingleDigitConcat("[[" + t1 + "]]" + op + "[[", t2);
    SingleDigitConcat("[[" + t1 + "]]" + op + "[[" + t2, "]]");
  }

  /** A row of n entries has n - 1 commas. */
  lemma RowCommas(row: seq<nat>)
    requires |row| > 0
    ensures CountOf(RowText(row), ",") == |row| - 1
  {
    var entries := EntryTexts(row);
    forall j | 0 <= j < |entries| ensures CountOf(entries[j], [',']) == 0 {
      assert entries[j] == NatToString(row[j]);
      DigitsLack(entries[j], ',');
      CountCharAbsent(entries[j], ',');
    }
    CountCharJoin(entries, ',', 0);
    var inner := Join(entries, ",");
    CountCharConcat("[", inner, ',');
    CountCharConcat("[" + inner, "]", ',');
    CountCharAbsent("[", ',');
    CountCharAbsent("]", ',');
  }

  /** An n-by-n matrix, n >= 1, has n * n - 1 commas: n - 1 in each row and n - 1 between rows. */
  lemma MatrixCommas(m: seq<seq<nat>>, n: nat)
    requires Square(m, n) && n > 0
    ensures CountOf(MatrixText(m), ",") == n * n - 1
  {
    var rows := RowTexts(m);
    forall i | 0 <= i < |rows| ensures CountOf(rows[i], [',']) == n - 1 {
      RowCommas(m[i]);
    }
    CountCharJoin(rows, ',', n - 1);
    assert n * (n - 1) + n - 1 == n * n - 1;
  }

  /** A row text holds no "],[": its only ']' is its last character. */
  lemma RowGap(row: seq<nat>, rest: string)
    ensures CountOf(RowText(row) + rest, "],[") == CountOf("]" + rest, "],[")
  {
    var inner := Join(EntryTexts(row), ",");
    forall j | 0 <= j < |EntryTexts(row)| ensures ']' !in EntryTexts(row)[j] {
      DigitsLack(EntryTexts(row)[j], ']');
    }
    JoinLacks(EntryTexts(row), ",", ']');
    assert RowText(row) + rest == ("[" + inner) + ("]" + rest);
    CountOfSkip("[" + inner, "]" + rest, "],[");
  }

  /** A matrix of k >= 1 rows holds k - 1 occurrences of "],[", one between each two rows. */
  lemma {:induction false} MatrixGaps(m: seq<seq<nat>>)
    requires |m| > 0
    ensures CountOf(MatrixText(m), "],[") == |m| - 1
    decreases |m|
  {
    var rows := RowTexts(m);
    if |m| == 1 {
      assert MatrixText(m) == RowText(m[0]) + "";
      RowGap(m[0], "");
      assert !StartsWith("]", "],[");
    } else {
      assert RowTexts(m[1..]) == rows[1..];
      var tail := MatrixText(m[1..]);
      MatrixGaps(m[1..]);
      assert MatrixText(m) == RowText(m[0]) + ("," + tail);
      RowGap(m[0], "," + tail);
      assert tail[0] == '[' by {
        assert RowTexts(m[1..])[0] == RowText(m[1][..]);
        assert m[1..][0] == m[1];
      }
      assert StartsWith("]" + ("," + tail), "],[");
      assert ("]" + ("," + tail))[1..] == "," + tail;
      CountOfSkip(",", tail, "],[");
    }
  }

  /** A problem over non-empty matrices opens with "[[[" and closes with "]]". */
  lemma MatrixProblemBrackets(m1: seq<seq<nat>>, m2: seq<seq<nat>>, op: string)
    requires |m1| > 0
    ensures StartsWith(MatrixProblem(m1, m2, op), "[[[")
    ensures var p := MatrixProblem(m1, m2, op); p[|p| - 2..] == "]]"
  {
    var t1 := MatrixText(m1);
    assert t1[0] == '[' by {
      assert RowTexts(m1)[0] == RowText(m1[0]);
    }
  }
}
