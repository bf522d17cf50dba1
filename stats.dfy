/**
 * The administrator's statistics dialog (class StatisticDialog). A read event
 * delivers one chunk, which replaces the shown text when it is an `allstats:`
 * reply; the refresh button writes an `allstats` request. The socket is an
 * optional connection (`hasSocket`) whose state is a parameter, and writes are
 * appended to `outbox`. The single instance is kept by class Dialogs.
 */
module Stats {
  import opened Wrappers
  import opened Text
  import opened MathParser
  import opened Db
  import opened Dispatcher
  import opened Server

  const StatsRequest: string := "allstats\r\n"

  // ---------------------------------------------------------------------------
  // Formatting a reply
  // ---------------------------------------------------------------------------

  /** A `|`-part's value: trimmed, everything after its first ':', trimmed again. */
  function FieldValue(part: string): string
  {
    Trimmed(AfterFirst(Trimmed(part), ':'))
  }

  /** The four lines shown for one user, and a blank line. */
  function Card(user: string, total: string, correct: string, lastLogin: string): string
  {
    "User: " + user + "\nTotal: " + total + "\nCorrect: " + correct + "\nLast Login: " + lastLogin + "\n\n"
  }

  /** What one `;;;`-record adds: a card from its first four `|`-parts, nothing when it has fewer. */
  function Entry(record: string): string
  {
    var parts := SplitSkipEmpty(record, "|");
    if |parts| >= 4 then Card(FieldValue(parts[0]), FieldValue(parts[1]), FieldValue(parts[2]), FieldValue(parts[3]))
    else ""
  }

  /** The cards of the records, in order. */
  function Formatted(records: seq<string>): string
    decreases |records|
  {
    if |records| == 0 then "" else Formatted(records[..|records| - 1]) + Entry(records[|records| - 1])
  }

  /** onSocketReadyRead on one chunk: an `allstats:` reply replaces the text, anything else leaves it. */
  function Displayed(text: string, chunk: string): string
  {
    var response := Trimmed(chunk);
    if StartsWith(response, "allstats:") then Formatted(SplitSkipEmpty(response[9..], ";;;")) else text
  }

  /** The loop over the records of a reply. */
  method FormatStats(statsData: string) returns (formatted: string)
    ensures formatted == Formatted(SplitSkipEmpty(statsData, ";;;"))
  {
    var users := SplitSkipEmpty(statsData, ";;;");
    formatted := "";
    for i := 0 to |users|
      invariant formatted == Formatted(users[..i])
    {
      assert users[..i + 1][..i] == users[..i];
      assert Formatted(users[..i + 1]) == Formatted(users[..i]) + Entry(users[i]);
      var parts := SplitSkipEmpty(users[i], "|");
      if |parts| >= 4 {
        var card := Card(FieldValue(parts[0]), FieldValue(parts[1]), FieldValue(parts[2]), FieldValue(parts[3]));
        formatted := formatted + card;
      } else {
        assert Entry(users[i]) == "";
        assert formatted + "" == formatted;
      }
    }
    assert users[..|users|] == users;
  }

  class StatisticDialog {
    /** Whether the dialog was given a socket. */
    const hasSocket: bool
    var text: string
    var outbox: seq<string>

    constructor(hasSocket: bool)
      ensures this.hasSocket == hasSocket && text == "" && outbox == []
    {
      this.hasSocket := hasSocket;
      text := "";
      outbox := [];
    }

    method OnSocketReadyRead(chunk: string)
      modifies this
      ensures text == Displayed(old(text), chunk) && outbox == old(outbox)
    {
      var response := Trimmed(chunk);
      if StartsWith(response, "allstats:") {
        text := FormatStats(response[9..]);
      }
    }

    /** refreshStats: the request goes out only on a connected socket (otherwise a warning box is shown). */
    method RefreshStats(connected: bool)
      modifies this
      ensures outbox == old(outbox) + (if hasSocket && connected then [StatsRequest] else [])
      ensures text == old(text)
    {
      if hasSocket && connected {
        outbox := outbox + [StatsRequest];
      }
    }
  }

  /** The static m_instance: at most one dialog exists at a time. */
  class Dialogs {
    var instance: StatisticDialog?

    constructor()
      ensures instance == null
    {
      instance := null;
    }

    /** StatisticDialog::instance: the existing dialog, or a new one on the given socket. */
    method Instance(hasSocket: bool) returns (d: StatisticDialog)
      modifies this
      ensures old(instance) != null ==> d == old(instance)
      ensures old(instance) == null ==> fresh(d) && d.hasSocket == hasSocket && d.text == "" && d.outbox == []
      ensures instance == d
    {
      if instance == null {
        instance := new StatisticDialog(hasSocket);
      }
      d := instance;
    }

    /** The destructor resets the instance. */
    method Destroy()
      modifies this
      ensures instance == null
    {
      instance := null;
    }
  }

  // ---------------------------------------------------------------------------
  // The documented reply format
  // ---------------------------------------------------------------------------

  /** One user's statistics as the dialog expects them. */
  datatype StatRow = StatRow(user: string, total: string, correct: string, lastLogin: string)

  /** A value that survives trimming and holds no separator; it may hold ':'. */
  predicate CleanValue(s: string)
  {
    |s| > 0 && !IsSpace(s[0]) && !IsSpace(s[|s| - 1]) && '|' !in s && ';' !in s
  }

  predicate CleanRow(r: StatRow)
  {
    CleanValue(r.user) && CleanValue(r.total) && CleanValue(r.correct) && CleanValue(r.lastLogin)
  }

  /** The `|`-parts of a record: "User: u | Total: t | Correct: c | Last Login: l". */
  function RecordParts(r: StatRow): seq<string>
  {
    ["User: " + r.user + " ", " Total: " + r.total + " ", " Correct: " + r.correct + " ", " Last Login: " + r.lastLogin]
  }

  function RecordLine(r: StatRow): string
  {
    Join(RecordParts(r), "|")
  }

  /** The records, each ended by ";;;". */
  function RowsText(rows: seq<StatRow>): string
    decreases |rows|
  {
    if |rows| == 0 then "" else RecordLine(rows[0]) + ";;;" + RowsText(rows[1..])
  }

  /** The full reply line. */
  function StatsReply(rows: seq<StatRow>): string
  {
    "allstats:" + RowsText(rows) + "\r\n"
  }

  function RecordLines(rows: seq<StatRow>): seq<string>
  {
    seq(|rows|, i requires 0 <= i < |rows| => RecordLine(rows[i]))
  }

  /** The cards the dialog should show for the rows. */
  function Cards(rows: seq<StatRow>): string
    decreases |rows|
  {
    if |rows| == 0 then ""
    else
      var r := rows[|rows| - 1];
      Cards(rows[..|rows| - 1]) + Card(r.user, r.total, r.correct, r.lastLogin)
  }

  lemma PaddedTrim(lead: string, s: string, trail: string)
    requires lead == "" || lead == " "
    requires trail == "" || trail == " "
    requires |s| > 0 && !IsSpace(s[0]) && !IsSpace(s[|s| - 1])
    ensures Trimmed(lead + s + trail) == s
  {
    var x := lead + s + trail;
    assert TrimStart(x) == s + trail by {
      if lead == " " {
        assert x[0] == ' ' && x[1..] == s + trail;
      } else {
        assert x == s + trail;
      }
    }
    assert TrimEnd(s) == s;
    if trail == " " {
      assert (s + trail)[..|s|] == s;
      assert TrimEnd(s + trail) == TrimEnd(s);
    } else {
      assert s + trail == s;
    }
  }

  /** A padded "key: value" part yields its value, colons inside the value included. */
  lemma FieldOfPadded(lead: string, key: string, opening: string, value: string, trail: string)
    requires lead == "" || lead == " "
    requires trail == "" || trail == " "
    requires |key| > 0 && !IsSpace(key[0]) && ':' !in key && CleanValue(value)
    requires opening == lead + key + ": "
    ensures FieldValue(opening + value + trail) == value
  {
    PaddedField(lead, key, opening, value, trail);
    ValueAfterKey(key, value);
  }

  /** Trimming a padded part leaves "key: value". */
  lemma PaddedField(lead: string, key: string, opening: string, value: string, trail: string)
    requires lead == "" || lead == " "
    requires trail == "" || trail == " "
    requires |key| > 0 && !IsSpace(key[0]) && CleanValue(value)
    requires opening == lead + key + ": "
    ensures Trimmed(opening + value + trail) == key + ": " + value
  {
    var field := key + ": " + value;
    assert opening + value + trail == lead + field + trail;
    PaddedTrim(lead, field, trail);
  }

  /** What follows the key's colon, trimmed, is the value. */
  lemma ValueAfterKey(key: string, value: string)
    requires ':' !in key && CleanValue(value)
    ensures Trimmed(AfterFirst(key + ": " + value, ':')) == value
  {
    assert key + ": " + value == key + [':'] + (" " + value);
    AfterFirstOfField(key, ':', " " + value);
    PaddedTrim(" ", value, "");
    assert " " + value + "" == " " + value;
  }

  /** The first two fields of a documented record. */
  lemma LeadingFields(r: StatRow)
    requires CleanRow(r)
    ensures FieldValue(RecordParts(r)[0]) == r.user && FieldValue(RecordParts(r)[1]) == r.total
  {
    assert "User: " == "" + "User" + ": " && " Total: " == " " + "Total" + ": ";
    FieldOfPadded("", "User", "User: ", r.user, " ");
    FieldOfPadded(" ", "Total", " Total: ", r.total, " ");
  }

  /** The last two fields of a documented record. */
  lemma TrailingFields(r: StatRow)
    requires CleanRow(r)
    ensures FieldValue(RecordParts(r)[2]) == r.correct && FieldValue(RecordParts(r)[3]) == r.lastLogin
  {
    assert " Correct: " == " " + "Correct" + ": " && " Last Login: " == " " + "Last Login" + ": ";
    FieldOfPadded(" ", "Correct", " Correct: ", r.correct, " ");
    FieldOfPadded(" ", "Last Login", " Last Login: ", r.lastLogin, "");
    assert " Last Login: " + r.lastLogin + "" == RecordParts(r)[3];
  }

  /** A documented record splits into its four parts. */
  lemma RecordSplit(r: StatRow)
    requires CleanRow(r)
    ensures SplitSkipEmpty(RecordLine(r), "|") == RecordParts(r)
  {
    var parts := RecordParts(r);
    forall i | 0 <= i < |parts| ensures '|' !in parts[i] && parts[i] != "" {
    }
    SplitJoin(parts, '|');
    DropEmptyTokens(parts);
  }

  /** A documented record gives the card of its row. */
  lemma EntryOfRecord(r: StatRow)
    requires CleanRow(r)
    ensures Entry(RecordLine(r)) == Card(r.user, r.total, r.correct, r.lastLogin)
  {
    RecordSplit(r);
    LeadingFields(r);
    TrailingFields(r);
  }

  /** The reply's records split back into the record lines. */
  lemma {:induction false} RecordsSplit(rows: seq<StatRow>)
    requires forall i :: 0 <= i < |rows| ==> CleanRow(rows[i])
    ensures SplitSkipEmpty(RowsText(rows), ";;;") == RecordLines(rows)
    decreases |rows|
  {
    if |rows| == 0 {
      assert Split("", ";;;") == [""];
    } else {
      var line := RecordLine(rows[0]);
      assert ';' !in line by { JoinLacks(RecordParts(rows[0]), "|", ';'); }
      SplitTerminated(line, ";;;", RowsText(rows[1..]));
      RecordsSplit(rows[1..]);
      var xs := [line] + Split(RowsText(rows[1..]), ";;;");
      assert line != "" by { assert (RecordParts(rows[0])[0] + "|")[0] == 'U'; }
      assert xs[0] == line && xs[1..] == Split(RowsText(rows[1..]), ";;;");
      assert RecordLines(rows) == [line] + RecordLines(rows[1..]);
    }
  }

  /** The cards of the record lines are the cards of the rows. */
  lemma {:induction false} FormattedRecords(rows: seq<StatRow>)
    requires forall i :: 0 <= i < |rows| ==> CleanRow(rows[i])
    ensures Formatted(RecordLines(rows)) == Cards(rows)
    decreases |rows|
  {
    if |rows| > 0 {
      var n := |rows| - 1;
      assert RecordLines(rows)[..n] == RecordLines(rows[..n]);
      FormattedRecords(rows[..n]);
      EntryOfRecord(rows[n]);
    }
  }

  lemma RowsTextEnds(rows: seq<StatRow>)
    requires |rows| > 0
    ensures |RowsText(rows)| > 0 && RowsText(rows)[|RowsText(rows)| - 1] == ';'
  {
    var rest := RowsText(rows[1..]);
    assert RowsText(rows) == (RecordLine(rows[0]) + ";;") + (";" + rest);
    if |rows| > 1 {
      RowsTextEnds(rows[1..]);
    }
  }

  /** The reply, trimmed, is the `allstats:` text with its records. */
  lemma ReplyTrimmed(rows: seq<StatRow>)
    ensures Trimmed(StatsReply(rows)) == "allstats:" + RowsText(rows)
  {
    var message := "allstats:" + RowsText(rows);
    assert message[0] == 'a';
    if |rows| > 0 {
      RowsTextEnds(rows);
      assert message[|message| - 1] == RowsText(rows)[|RowsText(rows)| - 1];
    }
    TrimmedDropsCrLf(message);
  }

  lemma DisplayedReply(text: string, rows: seq<StatRow>)
    ensures Displayed(text, StatsReply(rows)) == Formatted(SplitSkipEmpty(RowsText(rows), ";;;"))
  {
    var message := "allstats:" + RowsText(rows);
    ReplyTrimmed(rows);
    assert StartsWith(message, "allstats:") && message[9..] == RowsText(rows);
  }

  /** Round trip: a reply in the documented format shows exactly the cards of its rows. */
  lemma StatsRoundTrip(text: string, rows: seq<StatRow>)
    requires forall i :: 0 <= i < |rows| ==> CleanRow(rows[i])
    ensures Displayed(text, StatsReply(rows)) == Cards(rows)
  {
    DisplayedReply(text, rows);
    RecordsSplit(rows);
    FormattedRecords(rows);
  }

  // ---------------------------------------------------------------------------
  // The request against the server
  // ---------------------------------------------------------------------------

  lemma RequestParts()
    ensures AsciiTrimmed(StatsRequest) == "allstats"
    ensures Split("allstats", " ") == ["allstats"]
    ensures Join(["allstats"], " ") == "allstats"
  {
    assert StatsRequest == "allstats" + "\r\n";
    AsciiTrimmedDropsCrLf("allstats");
    SplitNoSeparator("allstats", ' ');
  }

  /**
   * The server has no allstats command: an authenticated connection's request
   * gets "Unknown command" and changes nothing, an unauthenticated one is
   * asked to authenticate.
   */
  lemma RequestUnknownToServer(logins: map<Connection, string>, t: Tables, hash: string -> string, isAdmin: string -> bool,
                               generated: string -> seq<Problem>, rt: Runtime, conn: Connection, now: nat)
    ensures var s := Serve(logins, t, hash, isAdmin, generated, rt, conn, StatsRequest, now);
      s == Served(logins, t, if BoundName(logins, conn) == "" then AuthFirst else UnknownCommand, None)
  {
    RequestParts();
    TokensSplit(["allstats"]);
  }

  /** A chunk that starts with a character other than whitespace and 'a' leaves the dialog's text. */
  lemma OtherReplyIgnored(text: string, chunk: string)
    requires |chunk| > 0 && !IsSpace(chunk[0]) && chunk[0] != 'a'
    ensures Displayed(text, chunk) == text
  {
    TrimmedKeepsFirst(chunk);
  }

  /** A refresh never fills the dialog: whatever the session, the server's answer leaves the text as it was. */
  lemma RefreshNeverAnswered(text: string, logins: map<Connection, string>, t: Tables, hash: string -> string,
                             isAdmin: string -> bool, generated: string -> seq<Problem>, rt: Runtime, conn: Connection, now: nat)
    ensures Displayed(text, Serve(logins, t, hash, isAdmin, generated, rt, conn, StatsRequest, now).response) == text
  {
    RequestUnknownToServer(logins, t, hash, isAdmin, generated, rt, conn, now);
    assert UnknownCommand[0] == 'U';
    assert AuthFirst[0] == 'Y' by { assert "You need to authenticate first. "[0] == 'Y'; }
    OtherReplyIgnored(text, UnknownCommand);
    OtherReplyIgnored(text, AuthFirst);
  }
}
