/**
 * The client's task windows (Task1 for algebra; Task3 and Task4, identical but
 * for the category, for trigonometry and calculus). Each keeps the problems the
 * server sent, the texts of its four problem labels and the marks of its four
 * result labels; socket writes are appended to `outbox`. The UI otherwise is
 * not modelled.
 */
module Tasks {
  import opened Wrappers
  import opened Text
  import opened Dispatcher

  /** The stored problems, the problem label texts and the result marks, by label number. */
  datatype View = View(problems: seq<(string, string)>, labels: map<nat, string>, marks: map<nat, bool>)

  const InitialView: View := View([], map[], map[])

  // ---------------------------------------------------------------------------
  // Decoding one message
  // ---------------------------------------------------------------------------

  /** A `;`-piece that splits on `|` into exactly two fields. */
  predicate WellFormed(piece: string)
  {
    |Split(piece, "|")| == 2
  }

  function PairOf(piece: string): (string, string)
    requires WellFormed(piece)
  {
    (Split(piece, "|")[0], Split(piece, "|")[1])
  }

  /** The pieces the loop examines: the first four at most. */
  function Examined(body: string): (r: seq<string>)
    ensures |r| <= 4
  {
    var pieces := Split(body, ";");
    if |pieces| <= 4 then pieces else pieces[..4]
  }

  /** The pairs of the well-formed pieces, in order. */
  function KeptFrom(pieces: seq<string>): (r: seq<(string, string)>)
    ensures |r| <= |pieces|
    decreases |pieces|
  {
    if |pieces| == 0 then []
    else
      var init := KeptFrom(pieces[..|pieces| - 1]);
      var last := pieces[|pieces| - 1];
      if WellFormed(last) then init + [PairOf(last)] else init
  }

  /** Label i shows the text of piece i when that piece is well formed; other labels keep their text. */
  function LabelsFrom(labels: map<nat, string>, pieces: seq<string>): map<nat, string>
    decreases |pieces|
  {
    if |pieces| == 0 then labels
    else
      var init := LabelsFrom(labels, pieces[..|pieces| - 1]);
      var last := pieces[|pieces| - 1];
      if WellFormed(last) then init[|pieces| - 1 := PairOf(last).0] else init
  }

  /** A `result:` body: two `|`-fields, the toInt of the first picks a label 0..3, the mark is whether the second is "1". */
  function DecodedResult(v: View, body: string): View
  {
    var parts := Split(body, "|");
    if |parts| != 2 then v
    else
      var taskNum := ToInt(parts[0]);
      if 0 <= taskNum <= 3 then v.(marks := v.marks[taskNum := parts[1] == "1"]) else v
  }

  /** processMessage: a `problems:` line replaces the list, a `result:` line sets a mark, anything else is ignored. */
  function Processed(v: View, message: string): View
  {
    if StartsWith(message, "problems:") then
      var pieces := Examined(message[9..]);
      View(KeptFrom(pieces), LabelsFrom(v.labels, pieces), v.marks)
    else if StartsWith(message, "result:") then DecodedResult(v, message[7..])
    else v
  }

  /** The messages processed in order. */
  function ProcessedAll(v: View, messages: seq<string>): View
    decreases |messages|
  {
    if |messages| == 0 then v else Processed(ProcessedAll(v, messages[..|messages| - 1]), messages[|messages| - 1])
  }

  /** The bounded loop over the pieces of a `problems:` body, appending to the cleared list. */
  method DecodeProblems(labels0: map<nat, string>, body: string) returns (problems: seq<(string, string)>, labels: map<nat, string>)
    ensures problems == KeptFrom(Examined(body)) && labels == LabelsFrom(labels0, Examined(body))
  {
    var pieces := Split(body, ";");
    var n := if |pieces| < 4 then |pieces| else 4;
    problems, labels := [], labels0;
    for i := 0 to n
      invariant problems == KeptFrom(pieces[..i]) && labels == LabelsFrom(labels0, pieces[..i])
    {
      assert pieces[..i + 1][..i] == pieces[..i];
      var parts := Split(pieces[i], "|");
      if |parts| == 2 {
        problems := problems + [(parts[0], parts[1])];
        labels := labels[i := parts[0]];
      }
    }
    assert pieces[..n] == Examined(body);
  }

  /** processMessage, on a view. */
  method ProcessMessage(v: View, message: string) returns (v': View)
    ensures v' == Processed(v, message)
  {
    if StartsWith(message, "problems:") {
      var problems, labels := DecodeProblems(v.labels, message[9..]);
      v' := View(problems, labels, v.marks);
    } else if StartsWith(message, "result:") {
      var parts := Split(message[7..], "|");
      v' := v;
      if |parts| == 2 {
        var taskNum := ToInt(parts[0]);
        var isCorrect := parts[1] == "1";
        if 0 <= taskNum <= 3 {
          v' := v.(marks := v.marks[taskNum := isCorrect]);
        }
      }
    } else {
      v' := v;
    }
  }

  /** checkAnswer: a check_answer line for an index of a stored problem, nothing otherwise. */
  function CheckAnswerWrites(category: string, index: int, answer: string, count: nat): seq<string>
  {
    if 0 <= index < count then ["check_answer " + category + " " + IntToString(index) + " " + answer + "\r\n"] else []
  }

  // ---------------------------------------------------------------------------
  // The line buffer of Task1
  // ---------------------------------------------------------------------------

  /**
   * onSocketReadyRead's split of buffer + data on "\r\n" (empty parts dropped):
   * every piece but the last is processed, the last is kept without its terminator.
   */
  function Reassembled(buffer: string, data: string): (r: (seq<string>, string))
  {
    var messages := SplitSkipEmpty(buffer + data, "\r\n");
    if |messages| == 0 then ([], "") else (messages[..|messages| - 1], messages[|messages| - 1])
  }

  class Task1 {
    var buffer: string
    var problems: seq<(string, string)>
    var labels: map<nat, string>
    var marks: map<nat, bool>
    var outbox: seq<string>

    function State(): View
      reads this
    {
      View(problems, labels, marks)
    }

    /** The window asks for the algebra problems as it opens. */
    constructor()
      ensures buffer == "" && State() == InitialView && outbox == ["get_problems algebra\r\n"]
    {
      buffer := "";
      problems, labels, marks := [], map[], map[];
      outbox := ["get_problems algebra\r\n"];
    }

    method OnSocketReadyRead(data: string)
      modifies this
      ensures buffer == Reassembled(old(buffer), data).1
      ensures State() == ProcessedAll(old(State()), Reassembled(old(buffer), data).0)
      ensures outbox == old(outbox)
    {
      buffer := buffer + data;
      var messages := SplitSkipEmpty(buffer, "\r\n");
      ghost var v0 := State();
      var i := 0;
      while i < |messages| - 1
        invariant 0 <= i <= if |messages| == 0 then 0 else |messages| - 1
        invariant State() == ProcessedAll(v0, messages[..i])
        invariant outbox == old(outbox)
      {
        assert messages[..i + 1][..i] == messages[..i];
        var v' := ProcessMessage(State(), messages[i]);
        problems, labels, marks := v'.problems, v'.labels, v'.marks;
        i := i + 1;
      }
      buffer := if |messages| == 0 then "" else messages[|messages| - 1];
    }

    method CheckAnswer(problemIndex: int, answer: string)
      modifies this
      ensures outbox == old(outbox) + CheckAnswerWrites("algebra", problemIndex, answer, |problems|)
      ensures State() == old(State()) && buffer == old(buffer)
    {
      if 0 <= problemIndex < |problems| {
        var command := "check_answer algebra " + IntToString(problemIndex) + " " + answer + "\r\n";
        assert "check_answer algebra " == "check_answer " + "algebra" + " ";
        outbox := outbox + [command];
      }
    }
  }

  // ---------------------------------------------------------------------------
  // Task3 and Task4: the whole read chunk is one message
  // ---------------------------------------------------------------------------

  class ChunkTask {
    const category: string
    var problems: seq<(string, string)>
    var labels: map<nat, string>
    var marks: map<nat, bool>
    var outbox: seq<string>

    function State(): View
      reads this
    {
      View(problems, labels, marks)
    }

    /** Task4 */
    constructor Calculus()
      ensures category == "calculus" && State() == InitialView && outbox == ["get_problems calculus\r\n"]
    {
      category := "calculus";
      problems, labels, marks := [], map[], map[];
      outbox := ["get_problems calculus\r\n"];
    }

    /** Task3 */
    constructor Trigonometry()
      ensures category == "trigonometry" && State() == InitialView && outbox == ["get_problems trigonometry\r\n"]
    {
      category := "trigonometry";
      problems, labels, marks := [], map[], map[];
      outbox := ["get_problems trigonometry\r\n"];
    }

    method OnSocketReadyRead(data: string)
      modifies this
      ensures State() == Processed(old(State()), data) && outbox == old(outbox)
    {
      var v' := ProcessMessage(State(), data);
      problems, labels, marks := v'.problems, v'.labels, v'.marks;
    }

    method CheckAnswer(problemIndex: int, answer: string)
      modifies this
      ensures outbox == old(outbox) + CheckAnswerWrites(category, problemIndex, answer, |problems|)
      ensures State() == old(State())
    {
      if 0 <= problemIndex < |problems| {
        outbox := outbox + ["check_answer " + category + " " + IntToString(problemIndex) + " " + answer + "\r\n"];
      }
    }
  }

  // ---------------------------------------------------------------------------
  // Decoding against the server's encoder
  // ---------------------------------------------------------------------------

  /** A problem whose text and answer hold neither separator. */
  predicate Clean(p: (string, string))
  {
    ';' !in p.0 && ';' !in p.1 && '|' !in p.0 && '|' !in p.1
  }

  /** A `problems:` message keeps at most four problems and leaves the marks alone. */
  lemma ProblemsBounded(v: View, message: string)
    requires StartsWith(message, "problems:")
    ensures |Processed(v, message).problems| <= 4 && Processed(v, message).marks == v.marks
  {
  }

  lemma EntrySplit(a: string, b: string)
    requires '|' !in a && '|' !in b
    ensures Split(EntryText((a, b)), "|") == [a, b]
  {
    assert EntryText((a, b)) == Join([a, b], "|");
    SplitJoin([a, b], '|');
  }

  /** Decoding the clean entries gives the pairs back. */
  lemma {:induction false} KeptEntries(qs: seq<(string, string)>)
    requires forall i :: 0 <= i < |qs| ==> Clean(qs[i])
    ensures KeptFrom(EntryTexts(qs)) == qs
    decreases |qs|
  {
    if |qs| > 0 {
      var n := |qs| - 1;
      assert EntryTexts(qs)[..n] == EntryTexts(qs[..n]);
      KeptEntries(qs[..n]);
      EntrySplit(qs[n].0, qs[n].1);
    }
  }

  /** Label i shows the text of entry i; the labels past the entries keep theirs. */
  lemma {:induction false} LabelledEntries(labels: map<nat, string>, qs: seq<(string, string)>)
    requires forall i :: 0 <= i < |qs| ==> Clean(qs[i])
    ensures var l := LabelsFrom(labels, EntryTexts(qs));
      && (forall i :: 0 <= i < |qs| ==> i in l && l[i] == qs[i].0)
      && (forall k :: k >= |qs| ==> (k in l <==> k in labels) && (k in labels ==> l[k] == labels[k]))
    decreases |qs|
  {
    if |qs| > 0 {
      var n := |qs| - 1;
      assert EntryTexts(qs)[..n] == EntryTexts(qs[..n]);
      LabelledEntries(labels, qs[..n]);
      EntrySplit(qs[n].0, qs[n].1);
    }
  }

  /** The pieces of a joined list of clean entries are the entries. */
  lemma EntriesPieces(qs: seq<(string, string)>)
    requires |qs| <= 4 && forall i :: 0 <= i < |qs| ==> Clean(qs[i])
    ensures Examined(Join(EntryTexts(qs), ";")) == EntryTexts(qs) || (|qs| == 0 && Examined(Join(EntryTexts(qs), ";")) == [""])
  {
    if |qs| == 0 {
      SplitNoSeparator("", ';');
    } else {
      forall i | 0 <= i < |qs| ensures ';' !in EntryTexts(qs)[i] {
        assert EntryTexts(qs)[i] == qs[i].0 + "|" + qs[i].1;
      }
      SplitJoin(EntryTexts(qs), ';');
    }
  }

  /**
   * Round trip: a `problems:` message carrying at most four clean entries
   * decodes to exactly those problems, label i showing problem i.
   */
  lemma ProblemsRoundTrip(v: View, qs: seq<(string, string)>)
    requires |qs| <= 4 && forall i :: 0 <= i < |qs| ==> Clean(qs[i])
    ensures var v' := Processed(v, "problems:" + Join(EntryTexts(qs), ";"));
      && v'.problems == qs && v'.marks == v.marks
      && (forall i :: 0 <= i < |qs| ==> i in v'.labels && v'.labels[i] == qs[i].0)
  {
    var body := Join(EntryTexts(qs), ";");
    var message := "problems:" + body;
    assert StartsWith(message, "problems:") && message[9..] == body;
    EntriesPieces(qs);
    KeptEntries(qs);
    LabelledEntries(v.labels, qs);
    if |qs| == 0 {
      SplitNoSeparator("", '|');
      assert !WellFormed("");
      assert KeptFrom([""]) == [];
    }
  }

  /** The server's line without its terminator (as Task1's buffer delivers it) gives back the listed problems. */
  lemma ServerProblemsDecoded(v: View, problems: seq<Problem>)
    requires forall i :: 0 <= i < |Listed(problems)| ==> Clean(Listed(problems)[i])
    ensures var message := "problems:" + Join(EntryTexts(Listed(problems)), ";");
      && ProblemsResponse(problems) == message + "\r\n"
      && Processed(v, message).problems == Listed(problems)
  {
    ListedProperties(problems);
    ProblemsRoundTrip(v, Listed(problems));
  }

  /** The last problem with the line terminator glued onto its answer. */
  function Terminated(qs: seq<(string, string)>): seq<(string, string)>
  {
    if |qs| == 0 then [] else qs[..|qs| - 1] + [(qs[|qs| - 1].0, qs[|qs| - 1].1 + "\r\n")]
  }

  /**
   * Task3 and Task4 decode the whole chunk, terminator included: the problems
   * come back with "\r\n" at the end of the last answer.
   */
  lemma ChunkProblemsDecoded(v: View, problems: seq<Problem>)
    requires forall i :: 0 <= i < |Listed(problems)| ==> Clean(Listed(problems)[i])
    ensures Processed(v, ProblemsResponse(problems)).problems == Terminated(Listed(problems))
  {
    var qs := Listed(problems);
    ListedProperties(problems);
    if |qs| == 0 {
      EmptyChunkDecoded(v, qs);
    } else {
      FullChunkDecoded(v, qs);
    }
  }

  /** A problems line with no entries leaves Task3 and Task4 with no problems. */
  lemma EmptyChunkDecoded(v: View, qs: seq<(string, string)>)
    requires qs == []
    ensures Processed(v, "problems:" + Join(EntryTexts(qs), ";") + "\r\n").problems == []
  {
    var body := "\r\n";
    assert "problems:" + Join(EntryTexts(qs), ";") + body == "problems:" + body;
    SplitNoSeparator(body, ';');
    SplitNoSeparator(body, '|');
    assert !WellFormed(body);
    assert KeptFrom([body]) == [];
    assert ("problems:" + body)[9..] == body;
  }

  /** With entries, the terminator ends up on the last answer. */
  lemma FullChunkDecoded(v: View, qs: seq<(string, string)>)
    requires |qs| > 0 && |qs| <= 4 && forall i :: 0 <= i < |qs| ==> Clean(qs[i])
    ensures Processed(v, "problems:" + Join(EntryTexts(qs), ";") + "\r\n").problems == Terminated(qs)
  {
    TerminatedJoin(qs);
    assert "problems:" + Join(EntryTexts(qs), ";") + "\r\n" == "problems:" + Join(EntryTexts(Terminated(qs)), ";");
    ProblemsRoundTrip(v, Terminated(qs));
  }

  lemma TerminatedJoin(qs: seq<(string, string)>)
    requires |qs| > 0 && forall i :: 0 <= i < |qs| ==> Clean(qs[i])
    ensures Join(EntryTexts(qs), ";") + "\r\n" == Join(EntryTexts(Terminated(qs)), ";")
    ensures |Terminated(qs)| == |qs| && forall i :: 0 <= i < |qs| ==> Clean(Terminated(qs)[i])
  {
    var n := |qs| - 1;
    var last := (qs[n].0, qs[n].1 + "\r\n");
    assert EntryText(last) == EntryText(qs[n]) + "\r\n";
    assert EntryTexts(qs) == EntryTexts(qs[..n]) + [EntryText(qs[n])];
    assert EntryTexts(Terminated(qs)) == EntryTexts(qs[..n]) + [EntryText(last)];
    if n > 0 {
      JoinSnoc(EntryTexts(qs[..n]), EntryText(qs[n]), ";");
      JoinSnoc(EntryTexts(qs[..n]), EntryText(last), ";");
    }
  }

  /** The result body the server sends, before its terminator. */
  lemma ResultFields(index: int, mark: string)
    requires '|' !in mark
    ensures Split(IntToString(index) + "|" + mark, "|") == [IntToString(index), mark]
  {
    var n: nat := if index < 0 then -index else index;
    DigitsLack(NatToString(n), '|');
    if index < 0 {
      assert IntToString(index) == "-" + NatToString(n);
    }
    assert IntToString(index) + "|" + mark == Join([IntToString(index), mark], "|");
    SplitJoin([IntToString(index), mark], '|');
  }

  /** Task1 reads the server's result line, without its terminator, back: label i gets the grade. */
  lemma ResultRoundTrip(v: View, index: int, correct: bool)
    requires 0 <= index <= 3
    ensures var message := "result:" + IntToString(index) + "|" + (if correct then "1" else "0");
      && ResultLine(index, correct) == message + "\r\n"
      && Processed(v, message) == v.(marks := v.marks[index := correct])
  {
    var mark := if correct then "1" else "0";
    var message := "result:" + IntToString(index) + "|" + mark;
    assert message[7..] == IntToString(index) + "|" + mark;
    assert !StartsWith(message, "problems:") by { assert message[0] == 'r'; }
    ResultFields(index, mark);
    ToIntOfIntToString(index);
  }

  /** Task3 and Task4 compare the untrimmed field with "1": every graded answer shows as wrong. */
  lemma ChunkResultAlwaysWrong(v: View, index: int, correct: bool)
    requires 0 <= index <= 3
    ensures Processed(v, ResultLine(index, correct)) == v.(marks := v.marks[index := false])
  {
    var mark := (if correct then "1" else "0") + "\r\n";
    var message := ResultLine(index, correct);
    assert message == "result:" + (IntToString(index) + "|" + mark);
    assert message[7..] == IntToString(index) + "|" + mark;
    assert !StartsWith(message, "problems:") by { assert message[0] == 'r'; }
    ResultFields(index, mark);
    ToIntOfIntToString(index);
    assert mark != "1" by { assert |mark| == 3; }
  }

  /**
   * A malformed piece shifts the problems against the labels: the list holds
   * the second piece's problem at index 0, while label 1 shows it and label 0
   * keeps its old text.
   */
  lemma MalformedPieceShiftsLabels(v: View, bad: string, text: string, answer: string)
    requires '|' !in bad && ';' !in bad && Clean((text, answer))
    ensures var v' := Processed(v, "problems:" + bad + ";" + EntryText((text, answer)));
      && v'.problems == [(text, answer)]
      && 1 in v'.labels && v'.labels[1] == text
      && (0 in v'.labels <==> 0 in v.labels) && (0 in v.labels ==> v'.labels[0] == v.labels[0])
  {
    var entry := EntryText((text, answer));
    var message := "problems:" + bad + ";" + entry;
    assert message[9..] == bad + ";" + entry;
    assert ';' !in entry;
    assert bad + ";" + entry == Join([bad, entry], ";");
    SplitJoin([bad, entry], ';');
    assert Examined(message[9..]) == [bad, entry];
    SplitNoSeparator(bad, '|');
    assert !WellFormed(bad);
    EntrySplit(text, answer);
    assert [bad, entry][..1] == [bad];
    assert [bad][..0] == [];
    assert KeptFrom([bad]) == [];
    assert LabelsFrom(v.labels, [bad]) == v.labels;
  }

  // ---------------------------------------------------------------------------
  // The line buffer
  // ---------------------------------------------------------------------------

  /**
   * A chunk holding one complete line is not processed: the line waits in the
   * buffer, glued to whatever was buffered before.
   */
  lemma LastLineWaits(buffer: string, line: string)
    requires '\r' !in buffer && '\r' !in line && buffer + line != ""
    ensures Reassembled(buffer, line + "\r\n") == ([], buffer + line)
  {
    assert buffer + (line + "\r\n") == (buffer + line) + "\r\n" + "";
    SplitTerminated(buffer + line, "\r\n", "");
    assert Split("", "\r\n") == [""];
    assert DropEmpty([buffer + line, ""]) == [buffer + line];
  }

  /** Only a second line in the same chunk releases the first, buffered text included. */
  lemma SecondLineReleasesFirst(buffer: string, first: string, second: string)
    requires '\r' !in buffer && '\r' !in first && '\r' !in second && buffer + first != "" && second != ""
    ensures Reassembled(buffer, first + "\r\n" + second + "\r\n") == ([buffer + first], second)
  {
    assert buffer + (first + "\r\n" + second + "\r\n") == (buffer + first) + "\r\n" + (second + "\r\n" + "");
    SplitTerminated(buffer + first, "\r\n", second + "\r\n" + "");
    SplitTerminated(second, "\r\n", "");
    assert Split("", "\r\n") == [""];
    assert second + "\r\n" + "" == second + "\r\n";
    assert Split(buffer + first + "\r\n" + (second + "\r\n" + ""), "\r\n") == [buffer + first] + ([second] + [""]);
    assert [buffer + first] + ([second] + [""]) == [buffer + first, second, ""];
    assert [buffer + first, second, ""][1..] == [second, ""];
    assert [second, ""][1..] == [""];
    assert DropEmpty([""]) == [];
    assert DropEmpty([buffer + first, second, ""]) == [buffer + first, second];
  }

  // ---------------------------------------------------------------------------
  // checkAnswer against the server's parser
  // ---------------------------------------------------------------------------

  lemma FourWords(a: string, opening: string, b: string, c: string, d: string)
    requires opening == a + " "
    ensures opening + b + " " + c + " " + d == Join([a, b, c, d], " ")
  {
    assert Join([a], " ") == a;
    JoinSnoc([a], b, " ");
    assert [a] + [b] == [a, b];
    JoinSnoc([a, b], c, " ");
    assert [a, b] + [c] == [a, b, c];
    JoinSnoc([a, b, c], d, " ");
    assert [a, b, c] + [d] == [a, b, c, d];
  }

  /** A check_answer line a task window writes is read by the server's parser as that command. */
  lemma CheckAnswerWriteParsed(category: string, index: int, answer: string, count: nat)
    requires 0 <= index < count && index <= IntMax
    requires Token(category) && Token(answer) && !IsAsciiSpace(answer[|answer| - 1])
    ensures |CheckAnswerWrites(category, index, answer, count)| == 1
    ensures ParseCommand(AsciiTrimmed(CheckAnswerWrites(category, index, answer, count)[0])) == CheckAnswer(category, index, answer)
  {
    var line := Join(["check_answer", category, IntToString(index), answer], " ");
    FourWords("check_answer", "check_answer ", category, IntToString(index), answer);
    assert CheckAnswerWrites(category, index, answer, count)[0] == line + "\r\n";
    assert line == CommandLine(CheckAnswer(category, index, answer));
    assert line[0] == 'c' by { assert ("check_answer " + category + " " + IntToString(index) + " " + answer)[0] == 'c'; }
    assert line[|line| - 1] == answer[|answer| - 1];
    AsciiTrimmedDropsCrLf(line);
    ParseCheckAnswerLine(category, index, answer);
  }
}
