/**
 * The behaviour of Qt's QString operations that the modelled code relies on:
 * prefix tests, search, replace-all, split (keeping or skipping empty parts),
 * join, trimming, ASCII lower-casing, integer formatting and QString::toInt.
 * Strings are sequences of UTF-16 code units; every character the model meets is
 * in the Basic Multilingual Plane, so `char` stands for one code unit.
 */
module Text {
  import opened Wrappers

  // ---------------------------------------------------------------------------
  // Prefixes and search
  // ---------------------------------------------------------------------------

  /** QString::startsWith */
  predicate StartsWith(s: string, prefix: string)
  {
    |prefix| <= |s| && s[..|prefix|] == prefix
  }

  /** QString::contains: some position of `s` starts an occurrence of `sub`. */
  predicate Contains(s: string, sub: string)
    decreases |s|
  {
    StartsWith(s, sub) || (|s| > 0 && Contains(s[1..], sub))
  }

  /** A string whose characters all avoid the first character of `sub` does not contain it. */
  lemma {:induction false} NotContainsByFirstChar(s: string, sub: string)
    requires |sub| > 0
    requires forall i :: 0 <= i < |s| ==> s[i] != sub[0]
    ensures !Contains(s, sub)
    decreases |s|
  {
    if |s| > 0 {
      assert s[0] != sub[0];
      NotContainsByFirstChar(s[1..], sub);
    }
  }

  /** Containing a one-character string is membership of that character. */
  lemma {:induction false} ContainsSingleChar(s: string, c: char)
    ensures Contains(s, [c]) <==> c in s
    decreases |s|
  {
    if |s| > 0 {
      ContainsSingleChar(s[1..], c);
      assert s == [s[0]] + s[1..];
    }
  }

  // ---------------------------------------------------------------------------
  // Replace and remove
  // ---------------------------------------------------------------------------

  /**
   * QString::replace(before, after): scans left to right, replaces every
   * non-overlapping occurrence of `from` and continues after the inserted text.
   */
  function ReplaceAll(s: string, from: string, to: string): string
    requires |from| > 0
    decreases |s|
  {
    if |s| == 0 then ""
    else if StartsWith(s, from) then to + ReplaceAll(s[|from|..], from, to)
    else [s[0]] + ReplaceAll(s[1..], from, to)
  }

  /** Every character of a replace-all result comes from the input or from the replacement. */
  lemma {:induction false} ReplaceAllChars(s: string, from: string, to: string, c: char)
    requires |from| > 0
    requires c !in s && c !in to
    ensures c !in ReplaceAll(s, from, to)
    decreases |s|
  {
    if |s| > 0 {
      if StartsWith(s, from) {
        ReplaceAllChars(s[|from|..], from, to, c);
      } else {
        ReplaceAllChars(s[1..], from, to, c);
      }
    }
  }

  /** Replacing a string by itself changes nothing. */
  lemma {:induction false} ReplaceAllSelf(s: string, from: string)
    requires |from| > 0
    ensures ReplaceAll(s, from, from) == s
    decreases |s|
  {
    if |s| > 0 {
      if StartsWith(s, from) {
        ReplaceAllSelf(s[|from|..], from);
        assert s == s[..|from|] + s[|from|..];
      } else {
        ReplaceAllSelf(s[1..], from);
        assert s == [s[0]] + s[1..];
      }
    }
  }

  /** A prefix in which no occurrence of `from` starts is copied unchanged. */
  lemma {:induction false} ReplaceAllKeepsPrefix(a: string, b: string, from: string, to: string)
    requires |from| > 0
    requires forall i :: 0 <= i < |a| ==> !StartsWith((a + b)[i..], from)
    ensures ReplaceAll(a + b, from, to) == a + ReplaceAll(b, from, to)
    decreases |a|
  {
    if |a| > 0 {
      var s := a + b;
      assert !StartsWith(s[0..], from);
      assert s[0..] == s;
      assert s[1..] == a[1..] + b;
      forall i | 0 <= i < |a[1..]|
        ensures !StartsWith((a[1..] + b)[i..], from)
      {
        assert (a[1..] + b)[i..] == s[i + 1..];
      }
      ReplaceAllKeepsPrefix(a[1..], b, from, to);
      assert |s| > 0 && !StartsWith(s, from);
      calc {
        ReplaceAll(s, from, to);
        [s[0]] + ReplaceAll(s[1..], from, to);
        [a[0]] + ReplaceAll(a[1..] + b, from, to);
        [a[0]] + (a[1..] + ReplaceAll(b, from, to));
        { assert a == [a[0]] + a[1..]; }
        a + ReplaceAll(b, from, to);
      }
    } else {
      assert a + b == b;
    }
  }

  /** A string in which `from` never starts is left unchanged. */
  lemma ReplaceAllAbsent(s: string, from: string, to: string)
    requires |from| > 0
    requires forall i :: 0 <= i < |s| ==> !StartsWith(s[i..], from)
    ensures ReplaceAll(s, from, to) == s
  {
    assert s + "" == s;
    ReplaceAllKeepsPrefix(s, "", from, to);
  }

  /** Replacing a character by a text without it leaves no occurrence of it. */
  lemma {:induction false} ReplaceCharGone(s: string, c: char, to: string)
    requires c !in to
    ensures c !in ReplaceAll(s, [c], to)
    decreases |s|
  {
    if |s| > 0 {
      ReplaceCharGone(s[1..], c, to);
      if !StartsWith(s, [c]) {
        assert s[..1] == [s[0]];
      }
    }
  }

  /** A string without the first character of `from` is left unchanged. */
  lemma {:induction false} ReplaceAllFirstAbsent(s: string, from: string, to: string)
    requires |from| > 0 && from[0] !in s
    ensures ReplaceAll(s, from, to) == s
    decreases |s|
  {
    if |s| > 0 {
      assert s[0] != from[0];
      assert !StartsWith(s, from);
      ReplaceAllFirstAbsent(s[1..], from, to);
      assert s == [s[0]] + s[1..];
    }
  }

  /** An occurrence at the very start is replaced and the scan goes on after it. */
  lemma ReplaceAllAtStart(from: string, b: string, to: string)
    requires |from| > 0
    ensures ReplaceAll(from + b, from, to) == to + ReplaceAll(b, from, to)
  {
    assert StartsWith(from + b, from) by { assert (from + b)[..|from|] == from; }
    assert (from + b)[|from|..] == b;
  }

  /** Replacing a single character: the text before its first occurrence is kept, the occurrence replaced. */
  lemma ReplaceCharFirst(a: string, c: char, b: string, to: string)
    requires c !in a
    ensures ReplaceAll(a + [c] + b, [c], to) == a + to + ReplaceAll(b, [c], to)
  {
    var s := a + [c] + b;
    forall i | 0 <= i < |a| ensures !StartsWith(s[i..], [c]) {
      assert s[i..][0] == a[i];
    }
    assert s == a + ([c] + b);
    ReplaceAllKeepsPrefix(a, [c] + b, [c], to);
    assert StartsWith([c] + b, [c]);
    assert ([c] + b)[1..] == b;
  }

  /** QString::remove(QChar): drops every occurrence of `c`. */
  function RemoveChar(s: string, c: char): (r: string)
    ensures c !in r
    ensures forall x :: x in r ==> x in s
    decreases |s|
  {
    if |s| == 0 then ""
    else if s[0] == c then RemoveChar(s[1..], c)
    else [s[0]] + RemoveChar(s[1..], c)
  }

  /** Removing a character that does not start the string keeps the first character. */
  lemma RemoveCharHead(s: string, c: char)
    requires |s| > 0 && s[0] != c
    ensures RemoveChar(s, c) == [s[0]] + RemoveChar(s[1..], c)
  {
  }

  /** Removing a character that does not occur is the identity. */
  lemma {:induction false} RemoveCharAbsent(s: string, c: char)
    requires c !in s
    ensures RemoveChar(s, c) == s
    decreases |s|
  {
    if |s| > 0 {
      RemoveCharAbsent(s[1..], c);
      assert s == [s[0]] + s[1..];
    }
  }

  /** Removing a character distributes over concatenation. */
  lemma {:induction false} RemoveCharConcat(a: string, b: string, c: char)
    ensures RemoveChar(a + b, c) == RemoveChar(a, c) + RemoveChar(b, c)
    decreases |a|
  {
    if |a| > 0 {
      assert (a + b)[0] == a[0] && (a + b)[1..] == a[1..] + b;
      RemoveCharConcat(a[1..], b, c);
    } else {
      assert a + b == b;
    }
  }

  // ---------------------------------------------------------------------------
  // Split and join
  // ---------------------------------------------------------------------------

  /** QString::split(sep) with Qt::KeepEmptyParts: an n-separator text has n+1 parts. */
  function Split(s: string, sep: string): (parts: seq<string>)
    requires |sep| > 0
    ensures |parts| >= 1
  {
    SplitFrom(s, sep, "")
  }

  /** Split with `cur` as the part read so far. */
  function SplitFrom(s: string, sep: string, cur: string): (parts: seq<string>)
    requires |sep| > 0
    ensures |parts| >= 1
    decreases |s|
  {
    if |s| == 0 then [cur]
    else if StartsWith(s, sep) then [cur] + SplitFrom(s[|sep|..], sep, "")
    else SplitFrom(s[1..], sep, cur + [s[0]])
  }

  /** Drops the empty strings, keeping the order of the others (Qt::SkipEmptyParts). */
  function DropEmpty(xs: seq<string>): (r: seq<string>)
    ensures forall i :: 0 <= i < |r| ==> r[i] != ""
    ensures |r| <= |xs|
  {
    if |xs| == 0 then []
    else if xs[0] == "" then DropEmpty(xs[1..])
    else [xs[0]] + DropEmpty(xs[1..])
  }

  /** QString::split(sep, Qt::SkipEmptyParts) */
  function SplitSkipEmpty(s: string, sep: string): seq<string>
    requires |sep| > 0
  {
    DropEmpty(Split(s, sep))
  }

  /** QStringList::join: the parts with `sep` between consecutive ones. */
  function Join(xs: seq<string>, sep: string): string
  {
    if |xs| == 0 then ""
    else if |xs| == 1 then xs[0]
    else xs[0] + sep + Join(xs[1..], sep)
  }

  /** A character no part and not the separator holds is absent from the joined text. */
  lemma {:induction false} JoinLacks(xs: seq<string>, sep: string, c: char)
    requires c !in sep && forall i :: 0 <= i < |xs| ==> c !in xs[i]
    ensures c !in Join(xs, sep)
    decreases |xs|
  {
    if |xs| > 1 {
      JoinLacks(xs[1..], sep, c);
    }
  }

  /** Appending a part to a non-empty list appends a separator and the part. */
  lemma {:induction false} JoinSnoc(xs: seq<string>, x: string, sep: string)
    requires |xs| > 0
    ensures Join(xs + [x], sep) == Join(xs, sep) + sep + x
    decreases |xs|
  {
    if |xs| > 1 {
      assert (xs + [x])[1..] == xs[1..] + [x];
      JoinSnoc(xs[1..], x, sep);
    } else {
      assert xs + [x] == [xs[0], x];
    }
  }

  /** Joining one more element of a list's prefix appends the separator and that element. */
  lemma JoinPrefixSnoc(xs: seq<string>, n: nat, sep: string)
    requires 1 < n <= |xs|
    ensures Join(xs[..n], sep) == Join(xs[..n - 1], sep) + sep + xs[n - 1]
  {
    assert xs[..n] == xs[..n - 1] + [xs[n - 1]];
    JoinSnoc(xs[..n - 1], xs[n - 1], sep);
  }

  /** A run of characters other than the separator is accumulated into the current part. */
  lemma {:induction false} SplitFromPlain(x: string, rest: string, c: char, cur: string)
    requires c !in x
    ensures SplitFrom(x + rest, [c], cur) == SplitFrom(rest, [c], cur + x)
    decreases |x|
  {
    if |x| == 0 {
      assert x + rest == rest;
      assert cur + x == cur;
    } else {
      var s := x + rest;
      assert s[0] == x[0] && s[0] != c;
      assert !StartsWith(s, [c]);
      assert s[1..] == x[1..] + rest;
      SplitFromPlain(x[1..], rest, c, cur + [x[0]]);
      assert cur + [x[0]] + x[1..] == cur + x;
    }
  }

  /** A run without the separator's first character is accumulated into the current part. */
  lemma {:induction false} SplitFromNoLead(x: string, rest: string, sep: string, cur: string)
    requires |sep| > 0 && sep[0] !in x
    ensures SplitFrom(x + rest, sep, cur) == SplitFrom(rest, sep, cur + x)
    decreases |x|
  {
    if |x| == 0 {
      assert x + rest == rest;
      assert cur + x == cur;
    } else {
      var s := x + rest;
      assert s[0] == x[0] && !StartsWith(s, sep);
      assert s[1..] == x[1..] + rest;
      SplitFromNoLead(x[1..], rest, sep, cur + [x[0]]);
      assert cur + [x[0]] + x[1..] == cur + x;
    }
  }

  /** A part ended by the separator splits off as one part. */
  lemma SplitTerminated(line: string, sep: string, rest: string)
    requires |sep| > 0 && sep[0] !in line
    ensures Split(line + sep + rest, sep) == [line] + Split(rest, sep)
  {
    assert line + sep + rest == line + (sep + rest);
    SplitFromNoLead(line, sep + rest, sep, "");
    assert "" + line == line;
    assert StartsWith(sep + rest, sep);
    assert (sep + rest)[|sep|..] == rest;
  }

  /** Splitting a joined list on a character none of its parts contains gives the list back. */
  lemma {:induction false} SplitJoin(xs: seq<string>, c: char)
    requires |xs| >= 1
    requires forall i :: 0 <= i < |xs| ==> c !in xs[i]
    ensures Split(Join(xs, [c]), [c]) == xs
    decreases |xs|
  {
    if |xs| == 1 {
      SplitFromPlain(xs[0], "", c, "");
      assert xs[0] + "" == xs[0];
      assert "" + xs[0] == xs[0];
    } else {
      var rest := Join(xs[1..], [c]);
      assert Join(xs, [c]) == xs[0] + ([c] + rest);
      SplitFromPlain(xs[0], [c] + rest, c, "");
      assert "" + xs[0] == xs[0];
      var t := [c] + rest;
      assert StartsWith(t, [c]);
      assert t[1..] == rest;
      SplitJoin(xs[1..], c);
      assert xs == [xs[0]] + xs[1..];
    }
  }

  /** A text without the separator splits into itself alone. */
  lemma SplitNoSeparator(s: string, c: char)
    requires c !in s
    ensures Split(s, [c]) == [s]
  {
    SplitJoin([s], c);
  }

  // ---------------------------------------------------------------------------
  // Trimming and case
  // ---------------------------------------------------------------------------

  /** QChar::isSpace: the ASCII controls 9-13, U+0085, and the Unicode separators (Zs, Zl, Zp). */
  predicate IsSpace(c: char)
  {
    ('\t' <= c <= '\r') || c == ' ' || c == '\U{85}' || c == '\U{A0}' || c == '\U{1680}'
    || ('\U{2000}' <= c <= '\U{200A}') || c == '\U{2028}' || c == '\U{2029}'
    || c == '\U{202F}' || c == '\U{205F}' || c == '\U{3000}'
  }

  function TrimStart(s: string): string
    decreases |s|
  {
    if |s| > 0 && IsSpace(s[0]) then TrimStart(s[1..]) else s
  }

  function TrimEnd(s: string): string
    decreases |s|
  {
    if |s| > 0 && IsSpace(s[|s| - 1]) then TrimEnd(s[..|s| - 1]) else s
  }

  /** QString::trimmed: whitespace removed from both ends. */
  function Trimmed(s: string): string
  {
    TrimEnd(TrimStart(s))
  }

  /** A string that neither starts nor ends with whitespace is its own trim. */
  lemma TrimmedClean(s: string)
    requires |s| > 0 ==> !IsSpace(s[0]) && !IsSpace(s[|s| - 1])
    ensures Trimmed(s) == s
  {
  }

  /** Trimming cuts only from the end of a text that starts with a non-space. */
  lemma {:induction false} TrimEndKeepsFirst(s: string)
    requires |s| > 0 && !IsSpace(s[0])
    ensures |TrimEnd(s)| > 0 && TrimEnd(s)[0] == s[0]
    decreases |s|
  {
    if IsSpace(s[|s| - 1]) {
      TrimEndKeepsFirst(s[..|s| - 1]);
    }
  }

  lemma TrimmedKeepsFirst(s: string)
    requires |s| > 0 && !IsSpace(s[0])
    ensures |Trimmed(s)| > 0 && Trimmed(s)[0] == s[0]
  {
    TrimEndKeepsFirst(s);
  }

  /** Trimming drops a line terminator at the end of a text. */
  lemma TrimmedDropsCrLf(s: string)
    requires |s| > 0 ==> !IsSpace(s[0]) && !IsSpace(s[|s| - 1])
    ensures Trimmed(s + "\r\n") == s
  {
    var t := s + "\r\n";
    if |s| == 0 {
      assert TrimStart(t) == TrimStart(t[1..]) == TrimStart(t[2..]) == "";
    } else {
      assert TrimStart(t) == t;
      assert t[..|t| - 1] == s + "\r";
      assert (s + "\r")[..|s|] == s;
      assert TrimEnd(t) == TrimEnd(s + "\r") == TrimEnd(s) == s;
    }
  }

  /** The whitespace bytes QByteArray::trimmed removes: the ASCII controls 9-13 and the space. */
  predicate IsAsciiSpace(c: char)
  {
    ('\t' <= c <= '\r') || c == ' '
  }

  function AsciiTrimStart(s: string): string
    decreases |s|
  {
    if |s| > 0 && IsAsciiSpace(s[0]) then AsciiTrimStart(s[1..]) else s
  }

  function AsciiTrimEnd(s: string): string
    decreases |s|
  {
    if |s| > 0 && IsAsciiSpace(s[|s| - 1]) then AsciiTrimEnd(s[..|s| - 1]) else s
  }

  /** QByteArray::trimmed, on the text of the bytes: ASCII whitespace removed from both ends. */
  function AsciiTrimmed(s: string): string
  {
    AsciiTrimEnd(AsciiTrimStart(s))
  }

  /** A string that neither starts nor ends with ASCII whitespace is its own byte trim. */
  lemma AsciiTrimmedClean(s: string)
    requires |s| > 0 ==> !IsAsciiSpace(s[0]) && !IsAsciiSpace(s[|s| - 1])
    ensures AsciiTrimmed(s) == s
  {
  }

  /** The byte trim drops a line terminator at the end of a text. */
  lemma AsciiTrimmedDropsCrLf(s: string)
    requires |s| > 0 ==> !IsAsciiSpace(s[0]) && !IsAsciiSpace(s[|s| - 1])
    ensures AsciiTrimmed(s + "\r\n") == s
  {
    var t := s + "\r\n";
    if |s| == 0 {
      assert AsciiTrimStart(t) == AsciiTrimStart(t[1..]) == AsciiTrimStart(t[2..]) == "";
    } else {
      assert AsciiTrimStart(t) == t;
      assert t[..|t| - 1] == s + "\r";
      assert (s + "\r")[..|s|] == s;
      assert AsciiTrimEnd(t) == AsciiTrimEnd(s + "\r") == AsciiTrimEnd(s) == s;
    }
  }

  /** Unicode whitespace that is not ASCII, such as U+00A0, survives the byte trim but not QString::trimmed. */
  lemma AsciiTrimKeepsWideSpace(s: string, c: char)
    requires |s| > 0 && !IsSpace(s[0]) && !IsSpace(s[|s| - 1])
    requires IsSpace(c) && !IsAsciiSpace(c)
    ensures AsciiTrimmed(s + [c]) == s + [c]
    ensures Trimmed(s + [c]) == s
  {
    var t := s + [c];
    assert t[..|t| - 1] == s;
    assert TrimStart(t) == t;
    assert TrimEnd(t) == TrimEnd(s) == s;
  }

  /**
   * Lower-casing of one character, as QString::toLower maps the capitals that
   * have a lower-case letter at a fixed offset: ASCII, Latin-1 (but U+00D7),
   * Greek (U+0391-U+03AB) and Cyrillic (U+0400-U+042F).
   */
  function LowerChar(c: char): char
  {
    if ('A' <= c <= 'Z') || ('\U{C0}' <= c <= '\U{DE}' && c != '\U{D7}')
       || ('\U{391}' <= c <= '\U{3AB}' && c != '\U{3A2}') || ('\U{410}' <= c <= '\U{42F}')
    then (c as int + 0x20) as char
    else if '\U{400}' <= c <= '\U{40F}' then (c as int + 0x50) as char
    else c
  }

  /** A lower-cased character is its own lower case, and lower-casing neither makes nor removes whitespace. */
  lemma LowerCharFacts(c: char)
    ensures LowerChar(LowerChar(c)) == LowerChar(c)
    ensures IsSpace(LowerChar(c)) <==> IsSpace(c)
  {
  }

  /** QString::toLower, character by character. */
  function ToLower(s: string): (r: string)
    ensures |r| == |s|
    ensures forall i :: 0 <= i < |s| ==> r[i] == LowerChar(s[i])
  {
    seq(|s|, i requires 0 <= i < |s| => LowerChar(s[i]))
  }

  /** Lower-casing twice is lower-casing once. */
  lemma ToLowerIdempotent(s: string)
    ensures ToLower(ToLower(s)) == ToLower(s)
  {
    forall i | 0 <= i < |s|
      ensures ToLower(ToLower(s))[i] == ToLower(s)[i]
    {
      LowerCharFacts(s[i]);
    }
  }

  lemma {:induction false} ToLowerTrimStart(s: string)
    ensures TrimStart(ToLower(s)) == ToLower(TrimStart(s))
    decreases |s|
  {
    if |s| > 0 {
      LowerCharFacts(s[0]);
      assert ToLower(s)[1..] == ToLower(s[1..]);
      if IsSpace(s[0]) {
        ToLowerTrimStart(s[1..]);
      }
    }
  }

  lemma {:induction false} ToLowerTrimEnd(s: string)
    ensures TrimEnd(ToLower(s)) == ToLower(TrimEnd(s))
    decreases |s|
  {
    if |s| > 0 {
      LowerCharFacts(s[|s| - 1]);
      assert ToLower(s)[..|s| - 1] == ToLower(s[..|s| - 1]);
      if IsSpace(s[|s| - 1]) {
        ToLowerTrimEnd(s[..|s| - 1]);
      }
    }
  }

  /** Trimming and lower-casing commute. */
  lemma ToLowerTrimmed(s: string)
    ensures Trimmed(ToLower(s)) == ToLower(Trimmed(s))
  {
    ToLowerTrimStart(s);
    ToLowerTrimEnd(TrimStart(s));
  }

  /** A text made of whitespace only. */
  predicate AllSpace(s: string)
  {
    forall i :: 0 <= i < |s| ==> IsSpace(s[i])
  }

  lemma {:induction false} TrimStartSpaces(pad: string, s: string)
    requires AllSpace(pad)
    ensures TrimStart(pad + s) == TrimStart(s)
    decreases |pad|
  {
    if |pad| > 0 {
      assert (pad + s)[1..] == pad[1..] + s;
      TrimStartSpaces(pad[1..], s);
    } else {
      assert pad + s == s;
    }
  }

  lemma {:induction false} TrimEndSpaces(s: string, pad: string)
    requires AllSpace(pad)
    ensures TrimEnd(s + pad) == TrimEnd(s)
    decreases |pad|
  {
    if |pad| > 0 {
      assert (s + pad)[..|s + pad| - 1] == s + pad[..|pad| - 1];
      TrimEndSpaces(s, pad[..|pad| - 1]);
    } else {
      assert s + pad == s;
    }
  }

  /** Trimming the front of a concatenation stops in the first part unless that part is all whitespace. */
  lemma {:induction false} TrimStartAppend(a: string, b: string)
    ensures TrimStart(a + b) == if |TrimStart(a)| > 0 then TrimStart(a) + b else TrimStart(b)
    decreases |a|
  {
    if |a| == 0 {
      assert a + b == b;
    } else if IsSpace(a[0]) {
      assert (a + b)[1..] == a[1..] + b;
      TrimStartAppend(a[1..], b);
    }
  }

  /** Whitespace added at either end does not change the trim. */
  lemma TrimmedPadded(lead: string, s: string, trail: string)
    requires AllSpace(lead) && AllSpace(trail)
    ensures Trimmed(lead + s + trail) == Trimmed(s)
  {
    assert lead + s + trail == lead + (s + trail);
    TrimStartSpaces(lead, s + trail);
    TrimStartAppend(s, trail);
    if |TrimStart(s)| > 0 {
      TrimEndSpaces(TrimStart(s), trail);
    } else {
      TrimStartSpaces(trail, "");
      assert trail + "" == trail;
    }
  }

  // ---------------------------------------------------------------------------
  // Integers and digits
  // ---------------------------------------------------------------------------

  /** QChar::isDigit, on the ASCII digits. */
  predicate IsDigit(c: char)
  {
    '0' <= c <= '9'
  }

  function DigitChar(d: nat): char
    requires d < 10
  {
    ('0' as int + d) as char
  }

  function DigitValue(c: char): nat
    requires IsDigit(c)
  {
    c as int - '0' as int
  }

  predicate AllDigits(s: string)
  {
    forall i :: 0 <= i < |s| ==> IsDigit(s[i])
  }

  /** A run of digits holds no other character. */
  lemma DigitsLack(s: string, c: char)
    requires AllDigits(s) && !IsDigit(c)
    ensures c !in s
  {
  }

  /** The number a run of decimal digits denotes. */
  function DigitsValue(s: string): nat
    requires AllDigits(s)
    decreases |s|
  {
    if |s| == 0 then 0 else DigitsValue(s[..|s| - 1]) * 10 + DigitValue(s[|s| - 1])
  }

  /** Decimal rendering of a natural number, as QString::number / arg(int) give it. */
  function NatToString(n: nat): (r: string)
    ensures |r| > 0 && AllDigits(r)
    decreases n
  {
    if n < 10 then [DigitChar(n)] else NatToString(n / 10) + [DigitChar(n % 10)]
  }

  /** Decimal rendering of an integer, with a leading '-' for a negative one. */
  function IntToString(i: int): string
  {
    if i < 0 then "-" + NatToString(-i) else NatToString(i)
  }

  /** The rendering of n denotes n. */
  lemma {:induction false} NatToStringValue(n: nat)
    ensures DigitsValue(NatToString(n)) == n
    decreases n
  {
    var s := NatToString(n);
    if n >= 10 {
      NatToStringValue(n / 10);
      assert s[..|s| - 1] == NatToString(n / 10);
    }
  }

  /** A number below ten is rendered as one digit. */
  lemma SingleDigit(n: nat)
    requires n < 10
    ensures NatToString(n) == [DigitChar(n)] && IntToString(n) == [DigitChar(n)]
  {
  }

  const IntMin: int := -0x8000_0000
  const IntMax: int := 0x7fff_ffff

  /**
   * QString::toInt (base 10): surrounding whitespace is ignored, an optional sign
   * precedes at least one digit, and the value must fit in 32 bits; otherwise 0.
   */
  function ToInt(s: string): (r: int)
    ensures IntMin <= r <= IntMax
  {
    var t := Trimmed(s);
    var neg := |t| > 0 && t[0] == '-';
    var body := if |t| > 0 && (t[0] == '-' || t[0] == '+') then t[1..] else t;
    if |body| == 0 || !AllDigits(body) then 0
    else
      var v := if neg then -(DigitsValue(body) as int) else DigitsValue(body) as int;
      if IntMin <= v <= IntMax then v else 0
  }

  /** toInt reads back the rendering of any 32-bit integer. */
  lemma ToIntOfIntToString(i: int)
    requires IntMin <= i <= IntMax
    ensures ToInt(IntToString(i)) == i
  {
    var s := IntToString(i);
    var digits := if i < 0 then NatToString(-i) else NatToString(i);
    NatToStringValue(if i < 0 then -i else i);
    assert |s| > 0 && !IsSpace(s[0]) && !IsSpace(s[|s| - 1]);
    TrimmedClean(s);
    if i < 0 {
      assert s[1..] == digits;
    }
  }

  // ---------------------------------------------------------------------------
  // Sections and counting
  // ---------------------------------------------------------------------------

  /**
   * QString::section(c, 1): everything after the first `c`, later occurrences of `c`
   * kept; empty when `c` does not occur.
   */
  function AfterFirst(s: string, c: char): (r: string)
    ensures c !in s ==> r == ""
    ensures |r| <= |s|
    decreases |s|
  {
    if |s| == 0 then ""
    else if s[0] == c then s[1..]
    else AfterFirst(s[1..], c)
  }

  /** The text after the first `c` of `key + [c] + value`, when `key` has no `c`, is `value`. */
  lemma {:induction false} AfterFirstOfField(key: string, c: char, value: string)
    requires c !in key
    ensures AfterFirst(key + [c] + value, c) == value
    decreases |key|
  {
    var s := key + [c] + value;
    if |key| == 0 {
      assert s == [c] + value;
    } else {
      assert s[1..] == key[1..] + [c] + value;
      AfterFirstOfField(key[1..], c, value);
    }
  }

  /** QString::count(sub): the positions at which `sub` starts (overlaps included). */
  function CountOf(s: string, sub: string): nat
    requires |sub| > 0
    decreases |s|
  {
    if |s| == 0 then 0
    else (if StartsWith(s, sub) then 1 else 0) + CountOf(s[1..], sub)
  }

  /** A prefix free of the first character of `sub` holds no occurrence of `sub`. */
  lemma {:induction false} CountOfSkip(a: string, b: string, sub: string)
    requires |sub| > 0
    requires sub[0] !in a
    ensures CountOf(a + b, sub) == CountOf(b, sub)
    decreases |a|
  {
    if |a| > 0 {
      assert (a + b)[0] == a[0];
      assert (a + b)[1..] == a[1..] + b;
      CountOfSkip(a[1..], b, sub);
    } else {
      assert a + b == b;
    }
  }

  /** Occurrences of a single character add up over a concatenation. */
  lemma {:induction false} CountCharConcat(a: string, b: string, c: char)
    ensures CountOf(a + b, [c]) == CountOf(a, [c]) + CountOf(b, [c])
    decreases |a|
  {
    if |a| > 0 {
      assert (a + b)[1..] == a[1..] + b;
      assert (a + b)[0] == a[0];
      CountCharConcat(a[1..], b, c);
    } else {
      assert a + b == b;
    }
  }

  /** A character a text lacks occurs in it zero times. */
  lemma CountCharAbsent(s: string, c: char)
    requires c !in s
    ensures CountOf(s, [c]) == 0
  {
    assert s + "" == s;
    CountOfSkip(s, "", [c]);
  }

  /** Joining with a separator character adds one occurrence of it per gap. */
  lemma {:induction false} CountCharJoin(xs: seq<string>, c: char, k: nat)
    requires |xs| > 0
    requires forall i :: 0 <= i < |xs| ==> CountOf(xs[i], [c]) == k
    ensures CountOf(Join(xs, [c]), [c]) == |xs| * k + |xs| - 1
    decreases |xs|
  {
    if |xs| > 1 {
      CountCharJoin(xs[1..], c, k);
      var j := Join(xs[1..], [c]);
      assert Join(xs, [c]) == xs[0] + ([c] + j);
      CountCharConcat(xs[0], [c] + j, c);
      CountCharConcat([c], j, c);
      assert CountOf(Join(xs, [c]), [c]) == k + 1 + CountOf(j, [c]);
      OneMorePart(|xs|, k, CountOf(j, [c]));
    }
  }

  /** Adding one part of k separators and one separator to n - 1 parts gives n parts. */
  lemma OneMorePart(n: int, k: int, count: int)
    requires count == (n - 1) * k + (n - 1) - 1
    ensures k + 1 + count == n * k + n - 1
  {
    assert n * k == (n - 1) * k + k;
  }

  /** Every character of `s` lies in `cs`. */
  predicate Within(s: string, cs: set<char>)
  {
    forall i :: 0 <= i < |s| ==> s[i] in cs
  }

  /** Joining parts drawn from `cs` with a separator drawn from `cs` stays within `cs`. */
  lemma {:induction false} JoinWithin(xs: seq<string>, sep: string, cs: set<char>)
    requires Within(sep, cs)
    requires forall i :: 0 <= i < |xs| ==> Within(xs[i], cs)
    ensures Within(Join(xs, sep), cs)
    decreases |xs|
  {
    if |xs| > 1 {
      JoinWithin(xs[1..], sep, cs);
    }
  }

  /** A prefix free of the character replaced is copied unchanged. */
  lemma ReplaceCharKeepsPrefix(a: string, b: string, c: char, to: string)
    requires c !in a
    ensures ReplaceAll(a + b, [c], to) == a + ReplaceAll(b, [c], to)
  {
    forall i | 0 <= i < |a| ensures !StartsWith((a + b)[i..], [c]) {
      assert (a + b)[i..][0] == a[i];
    }
    ReplaceAllKeepsPrefix(a, b, [c], to);
  }

  /**
   * A key of two or more characters occurs nowhere in `a + b` when its first
   * character is absent from `b` and every occurrence of it in `a` is followed,
   * inside `a`, by a character other than the key's second.
   */
  lemma KeyNowhere(a: string, b: string, key: string, to: string)
    requires |key| >= 2 && key[0] !in b
    requires forall i :: 0 <= i < |a| && a[i] == key[0] ==> i + 1 < |a| && a[i + 1] != key[1]
    ensures ReplaceAll(a + b, key, to) == a + b
  {
    forall i | 0 <= i < |a| ensures !StartsWith((a + b)[i..], key) {
      var t := (a + b)[i..];
      assert t[0] == a[i];
      assert i + 1 < |a| ==> t[1] == a[i + 1];
      assert |key| <= |t| ==> t[..|key|][0] == t[0] && t[..|key|][1] == t[1];
    }
    ReplaceAllKeepsPrefix(a, b, key, to);
    ReplaceAllFirstAbsent(b, key, to);
  }
}
