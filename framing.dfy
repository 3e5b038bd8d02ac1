/**
 * Wire framing of the debug adapter protocol as the client does it
 * (identical in debug.py and proto.py).
 *
 * Sending: the JSON text is prefixed with "Content-Length: N\r\n\r\n",
 * N being the length of the text (json.dumps escapes to ASCII, so
 * characters and bytes agree).
 *
 * Receiving: the debugger's output is read through a text-mode pipe, which
 * turns "\r\n" and a lone "\r" into "\n". The reader takes one line, parses
 * its last space-separated token as N and then reads N + 1 characters.
 * After the header line "Content-Length: N\n" the blank line "\n" is
 * still unread, so the N + 1 characters are that "\n" followed by the
 * N characters of JSON, and the stream is left at the next header. N
 * counts bytes but read counts characters, so the reading lemmas are
 * stated for payloads that are ASCII, where the two agree.
 */
module Framing {
  import opened Protocol

  const HeaderPrefix: string := "Content-Length: "
  const Separator: string := "\r\n\r\n"

  /* ---------- decimal numbers ---------- */

  predicate IsDigit(c: char) { '0' <= c <= '9' }

  predicate IsDigits(s: string) {
    forall i :: 0 <= i < |s| ==> IsDigit(s[i])
  }

  function DigitChar(d: nat): (c: char)
    requires d < 10
    ensures IsDigit(c) && c as int - '0' as int == d
  {
    ('0' as int + d) as char
  }

  /** The decimal text of n without leading zeros, as Python's str(n). */
  function Decimal(n: nat): (r: string)
    ensures r != [] && IsDigits(r)
    ensures n >= 10 <==> |r| > 1
    ensures r[0] == '0' ==> n == 0
  {
    if n < 10 then [DigitChar(n)] else Decimal(n / 10) + [DigitChar(n % 10)]
  }

  function DigitsValue(s: string): nat
    requires IsDigits(s)
  {
    if s == [] then 0
    else DigitsValue(s[..|s| - 1]) * 10 + (s[|s| - 1] as int - '0' as int)
  }

  /** Python's int() on a string of ASCII digits; anything else is a ValueError (None). */
  function ParseInt(s: string): Option<nat> {
    if s != [] && IsDigits(s) then Some(DigitsValue(s)) else None
  }

  lemma {:induction false} DecimalRoundTrip(n: nat)
    ensures ParseInt(Decimal(n)) == Some(n)
  {
    if n < 10 {
      var c := DigitChar(n);
      assert Decimal(n) == [c];
      assert [c][..0] == [];
      assert DigitsValue([c]) == n;
    } else {
      DecimalRoundTrip(n / 10);
      var d, c := Decimal(n / 10), DigitChar(n % 10);
      assert Decimal(n) == d + [c];
      assert (d + [c])[..|d + [c]| - 1] == d;
      assert IsDigits(d + [c]);
      assert DigitsValue(d + [c]) == DigitsValue(d) * 10 + n % 10;
    }
  }

  /* ---------- sending ---------- */

  function Header(n: nat): string {
    HeaderPrefix + Decimal(n) + Separator
  }

  /** What send_dap writes for the JSON text `json`. */
  function Frame(json: string): string {
    Header(|json|) + json
  }

  /** What several send_dap calls write, one after the other. */
  function FrameAll(jsons: seq<string>): string {
    if jsons == [] then [] else Frame(jsons[0]) + FrameAll(jsons[1..])
  }

  /**
   * JSON text that is ASCII only, with no raw carriage return or line feed:
   * what json.dumps produces by default (it escapes those inside strings),
   * and what the reading lemmas take the debugger's payloads to be.
   */
  predicate IsJsonText(json: string) {
    forall i :: 0 <= i < |json| ==> json[i] as int < 128 && json[i] != '\r' && json[i] != '\n'
  }

  /* ---------- the text-mode pipe ---------- */

  /** Universal-newline translation of what the debugger writes. */
  function UniversalNewlines(s: string): string {
    if s == [] then []
    else if s[0] == '\r' then
      "\n" + UniversalNewlines(if |s| > 1 && s[1] == '\n' then s[2..] else s[1..])
    else
      [s[0]] + UniversalNewlines(s[1..])
  }

  /** pipe.readline(): up to and including the first "\n", or all that is left. */
  function ReadLine(s: string): (r: (string, string))
    ensures r.0 + r.1 == s
    ensures s != [] ==> r.0 != []
  {
    if s == [] then ([], [])
    else if s[0] == '\n' then ([s[0]], s[1..])
    else
      var (line, rest) := ReadLine(s[1..]);
      ([s[0]] + line, rest)
  }

  /** line.split(" ")[-1]: what follows the last space. */
  function LastToken(line: string): (r: string)
    ensures |r| <= |line| && r == line[|line| - |r|..]
    ensures forall i :: 0 <= i < |r| ==> r[i] != ' '
  {
    if line == [] || line[|line| - 1] == ' ' then []
    else LastToken(line[..|line| - 1]) + [line[|line| - 1]]
  }

  /** Characters Python's str.isspace() accepts. */
  predicate IsSpace(c: char) {
    var k := c as int;
    k == 0x20 || 0x09 <= k <= 0x0D || 0x1C <= k <= 0x1F || k == 0x85 || k == 0xA0
    || k == 0x1680 || 0x2000 <= k <= 0x200A || k == 0x2028 || k == 0x2029
    || k == 0x202F || k == 0x205F || k == 0x3000
  }

  function StripRight(s: string): string {
    if s != [] && IsSpace(s[|s| - 1]) then StripRight(s[..|s| - 1]) else s
  }

  function StripLeft(s: string): string {
    if s != [] && IsSpace(s[0]) then StripLeft(s[1..]) else s
  }

  /** str.strip() */
  function Strip(s: string): string {
    StripLeft(StripRight(s))
  }

  /** int(line.split(" ")[-1].strip()) */
  function LengthField(line: string): Option<nat> {
    ParseInt(Strip(LastToken(line)))
  }

  /** pipe.read(count): `count` characters, or fewer at the end of the stream. */
  function Read(s: string, count: nat): (r: (string, string))
    ensures r.0 + r.1 == s
    ensures |r.0| == if count <= |s| then count else |s|
  {
    var k := if count <= |s| then count else |s|;
    (s[..k], s[k..])
  }

  /**
   * One iteration of DAP_Read on what is left of the pipe's text: the
   * payload put on the queue and the text after it, or None when int()
   * fails (also at the end of the stream, where readline gives ""), which
   * ends the reader thread. At the end of the stream read() gives fewer
   * than N + 1 characters.
   */
  function ReadFrame(text: string): (r: Option<(string, string)>)
    ensures r.Some? ==> |r.value.1| < |text|
  {
    var (line, rest) := ReadLine(text);
    match LengthField(line)
    case None => None
    case Some(n) => Some(Read(rest, n + 1))
  }

  /** Everything DAP_Read puts on its queue, in order, before it stops. */
  function Payloads(text: string): seq<string>
    decreases |text|
  {
    match ReadFrame(text)
    case None => []
    case Some((payload, rest)) => [payload] + Payloads(rest)
  }

  lemma PayloadsStep(text: string)
    ensures ReadFrame(text).None? ==> Payloads(text) == []
    ensures ReadFrame(text).Some? ==>
      Payloads(text) == [ReadFrame(text).value.0] + Payloads(ReadFrame(text).value.1)
  {
  }

  lemma ConsAssoc<T>(a: seq<T>, x: T, b: seq<T>)
    ensures (a + [x]) + b == a + ([x] + b)
  {
  }

  /** DAP_Read: the reader loop over the text of the pipe. */
  method DapRead(pipe: string) returns (queue: seq<string>)
    ensures queue == Payloads(pipe)
  {
    queue := [];
    var rest := pipe;
    while true
      invariant queue + Payloads(rest) == Payloads(pipe)
      decreases |rest|
    {
      // readline, int() of the last token, then read(N + 1)
      var frame := ReadFrame(rest);
      PayloadsStep(rest);
      if frame.None? {
        return;
      }
      var (payload, next) := frame.value;
      ConsAssoc(queue, payload, Payloads(next));
      queue := queue + [payload];
      rest := next;
    }
  }

  /* ---------- round trip ---------- */

  predicate NoCarriageReturn(s: string) {
    forall i :: 0 <= i < |s| ==> s[i] != '\r'
  }

  lemma {:induction false} UniversalNewlinesKeeps(s: string, t: string)
    requires NoCarriageReturn(s)
    ensures UniversalNewlines(s + t) == s + UniversalNewlines(t)
  {
    if s == [] {
      assert s + t == t;
    } else {
      assert s[0] != '\r';
      assert (s + t)[0] == s[0];
      assert (s + t)[1..] == s[1..] + t;
      assert NoCarriageReturn(s[1..]) by {
        forall i | 0 <= i < |s[1..]| ensures s[1..][i] != '\r' { assert s[1..][i] == s[i + 1]; }
      }
      UniversalNewlinesKeeps(s[1..], t);
      assert [s[0]] + s[1..] == s;
    }
  }

  lemma {:induction false} ReadLineUpTo(a: string, x: string)
    requires forall i :: 0 <= i < |a| ==> a[i] != '\n'
    ensures ReadLine(a + "\n" + x) == (a + "\n", x)
  {
    if a == [] {
      assert a + "\n" + x == "\n" + x;
    } else {
      assert (a + "\n" + x)[0] == a[0] != '\n';
      assert (a + "\n" + x)[1..] == a[1..] + "\n" + x;
      ReadLineUpTo(a[1..], x);
      assert [a[0]] + (a[1..] + "\n") == a + "\n";
    }
  }

  lemma {:induction false} LastTokenAppend(s: string, t: string)
    requires forall i :: 0 <= i < |t| ==> t[i] != ' '
    ensures LastToken(s + t) == LastToken(s) + t
    decreases |t|
  {
    if t == [] {
      assert s + t == s;
    } else {
      var u := t[..|t| - 1];
      assert (s + t)[|s + t| - 1] == t[|t| - 1] != ' ';
      assert (s + t)[..|s + t| - 1] == s + u;
      assert u + [t[|t| - 1]] == t;
      LastTokenAppend(s, u);
    }
  }

  lemma DigitsUnstripped(d: string)
    requires d != [] && IsDigits(d)
    ensures Strip(d + "\n") == d
  {
    var e := d + "\n";
    assert e[|e| - 1] == '\n' && e[..|e| - 1] == d;
    assert StripRight(e) == StripRight(d);
    assert !IsSpace(d[|d| - 1]) by { assert IsDigit(d[|d| - 1]); }
    assert StripRight(d) == d;
    assert !IsSpace(d[0]) by { assert IsDigit(d[0]); }
  }

  /** After a text ending in a space, a run of digits and a newline give the value of the digits. */
  lemma LengthFieldTail(p: string, d: string)
    requires LastToken(p) == [] && d != [] && IsDigits(d)
    ensures LengthField(p + d + "\n") == ParseInt(d)
  {
    var e := d + "\n";
    assert forall i :: 0 <= i < |e| ==> e[i] != ' ' by {
      forall i | 0 <= i < |e| ensures e[i] != ' ' {
        if i < |d| { assert IsDigit(d[i]); }
      }
    }
    LastTokenAppend(p, e);
    assert p + d + "\n" == p + e;
    DigitsUnstripped(d);
  }

  /** The header line "Content-Length: N\n" yields N. */
  lemma HeaderLineLength(n: nat)
    ensures LengthField(HeaderPrefix + Decimal(n) + "\n") == Some(n)
  {
    assert HeaderPrefix == HeaderPrefix[..|HeaderPrefix| - 1] + [' '];
    assert LastToken(HeaderPrefix) == [];
    LengthFieldTail(HeaderPrefix, Decimal(n));
    DecimalRoundTrip(n);
  }

  /**
   * Reading back one frame: what DAP_Read queues for a frame written by
   * send_dap is "\n" followed by the JSON text, and the pipe is left
   * exactly at whatever was written after the frame.
   */
  lemma FrameRoundTrip(json: string, more: string)
    requires IsJsonText(json)
    ensures ReadFrame(UniversalNewlines(Frame(json) + more))
         == Some(("\n" + json, UniversalNewlines(more)))
  {
    var a := HeaderPrefix + Decimal(|json|);
    var rest := "\n" + json + UniversalNewlines(more);
    TranslatedFrame(json, more);
    ReadLineUpTo(a, rest);
    HeaderLineLength(|json|);
    assert Read(rest, |json| + 1) == ("\n" + json, UniversalNewlines(more));
  }

  /** Through the text-mode pipe, the header's "\r\n\r\n" becomes "\n\n" and the rest is untouched. */
  lemma TranslatedFrame(json: string, more: string)
    requires IsJsonText(json)
    ensures UniversalNewlines(Frame(json) + more)
         == (HeaderPrefix + Decimal(|json|)) + "\n" + ("\n" + json + UniversalNewlines(more))
  {
    var a := HeaderPrefix + Decimal(|json|);
    assert Frame(json) + more == a + ("\r\n\r\n" + (json + more));
    UniversalNewlinesKeeps(a, "\r\n\r\n" + (json + more));
    UniversalNewlinesKeeps(json, more);
    SeparatorTranslated(json + more);
  }

  /** A lone carriage return, one not followed by a line feed, becomes a line feed. */
  lemma LoneCarriageReturn(t: string)
    requires t == [] || t[0] != '\n'
    ensures UniversalNewlines("\r" + t) == "\n" + UniversalNewlines(t)
  {
    assert ("\r" + t)[1..] == t;
  }

  /** A carriage return followed by a line feed becomes one line feed. */
  lemma CarriageReturnLineFeed(t: string)
    ensures UniversalNewlines("\r\n" + t) == "\n" + UniversalNewlines(t)
  {
    assert ("\r\n" + t)[2..] == t;
  }

  lemma SeparatorTranslated(t: string)
    ensures UniversalNewlines("\r\n\r\n" + t) == "\n\n" + UniversalNewlines(t)
  {
    var w := "\r\n\r\n" + t;
    assert w[2..] == "\r\n" + t;
    assert w[2..][2..] == t;
  }

  lemma PayloadsOfFrame(json: string, more: string)
    requires IsJsonText(json)
    ensures Payloads(UniversalNewlines(Frame(json) + more)) == ["\n" + json] + Payloads(UniversalNewlines(more))
  {
    FrameRoundTrip(json, more);
    PayloadsStep(UniversalNewlines(Frame(json) + more));
  }

  /** Every text of `jsons` is such JSON text. */
  predicate AllJsonText(jsons: seq<string>) {
    jsons == [] || (IsJsonText(jsons[0]) && AllJsonText(jsons[1..]))
  }

  /** Each JSON text as DAP_Read queues it: preceded by the unread "\n". */
  function Prefixed(jsons: seq<string>): (r: seq<string>)
    ensures |r| == |jsons|
  {
    if jsons == [] then [] else ["\n" + jsons[0]] + Prefixed(jsons[1..])
  }

  /**
   * Reading back a whole session's output: for any sequence of JSON
   * texts, DAP_Read queues one payload per text, each "\n" + the text,
   * in order, and nothing else.
   */
  lemma {:induction false} FramesRoundTrip(jsons: seq<string>)
    requires AllJsonText(jsons)
    ensures Payloads(UniversalNewlines(FrameAll(jsons))) == Prefixed(jsons)
  {
    if jsons != [] {
      PayloadsOfFrame(jsons[0], FrameAll(jsons[1..]));
      FramesRoundTrip(jsons[1..]);
    }
  }

  /* ---------- what each piece of the reader computes ---------- */

  /** The header announces n: the prefix, then digits whose value is n, then two CRLF pairs. */
  lemma HeaderAnnounces(n: nat)
    ensures var h := Header(n);
      && |h| == |HeaderPrefix| + |Decimal(n)| + |Separator|
      && h[..|HeaderPrefix|] == HeaderPrefix && h[|h| - |Separator|..] == Separator
      && ParseInt(h[|HeaderPrefix|..|h| - |Separator|]) == Some(n)
  {
    var h := Header(n);
    DecimalRoundTrip(n);
    assert h[|HeaderPrefix|..|h| - |Separator|] == Decimal(n);
  }

  /** A frame is a header announcing the length of the JSON text, then that text. */
  lemma FrameAnnounces(json: string)
    ensures var f := Frame(json);
      && f[..|f| - |json|] == Header(|json|)
      && f[|f| - |json|..] == json
      && ParseInt(f[|HeaderPrefix|..|f| - |json| - |Separator|]) == Some(|json|)
  {
    var f := Frame(json);
    var h := Header(|json|);
    HeaderAnnounces(|json|);
    assert f[..|h|] == h;
    assert f[|HeaderPrefix|..|f| - |json| - |Separator|] == h[|HeaderPrefix|..|h| - |Separator|];
  }

  /** The translated text holds no carriage return and is no longer than the original. */
  lemma {:induction false} UniversalNewlinesClean(s: string)
    ensures |UniversalNewlines(s)| <= |s|
    ensures forall i :: 0 <= i < |UniversalNewlines(s)| ==> UniversalNewlines(s)[i] != '\r'
    ensures NoCarriageReturn(s) ==> UniversalNewlines(s) == s
    decreases |s|
  {
    if s != [] {
      var t := if s[0] == '\r' && |s| > 1 && s[1] == '\n' then s[2..] else s[1..];
      UniversalNewlinesClean(t);
      var c := if s[0] == '\r' then '\n' else s[0];
      assert UniversalNewlines(s) == [c] + UniversalNewlines(t);
    }
    if NoCarriageReturn(s) {
      UniversalNewlinesKeeps(s, []);
      assert s + [] == s;
    }
  }

  /** readline stops at the first newline: none before the end of the line, and one at its end unless the text ran out. */
  lemma {:induction false} ReadLineFirstNewline(s: string)
    ensures var (line, rest) := ReadLine(s);
      && (forall i :: 0 <= i < |line| - 1 ==> line[i] != '\n')
      && (rest != [] ==> line[|line| - 1] == '\n')
    decreases |s|
  {
    if s != [] && s[0] != '\n' {
      ReadLineFirstNewline(s[1..]);
      var (l, rest) := ReadLine(s[1..]);
      var line := [s[0]] + l;
      assert ReadLine(s) == (line, rest);
      forall i | 0 <= i < |line| - 1 ensures line[i] != '\n' {
        if i > 0 { assert line[i] == l[i - 1]; }
      }
    }
  }

  /** split(" ")[-1] is everything after the last space: the character before it, if any, is a space. */
  lemma {:induction false} LastTokenAfterLastSpace(line: string)
    ensures var r := LastToken(line);
      |r| < |line| ==> line[|line| - |r| - 1] == ' '
    decreases |line|
  {
    if line != [] && line[|line| - 1] != ' ' {
      var p := line[..|line| - 1];
      LastTokenAfterLastSpace(p);
      assert LastToken(line) == LastToken(p) + [line[|line| - 1]];
      var r := LastToken(p);
      if |r| < |p| {
        assert line[|line| - (|r| + 1) - 1] == p[|p| - |r| - 1];
      }
    }
  }

  lemma {:induction false} StripRightSlice(s: string)
    ensures var r := StripRight(s);
      && |r| <= |s| && r == s[..|r|]
      && (r != [] ==> !IsSpace(r[|r| - 1]))
      && forall i :: |r| <= i < |s| ==> IsSpace(s[i])
    decreases |s|
  {
    if s != [] && IsSpace(s[|s| - 1]) {
      var p := s[..|s| - 1];
      StripRightSlice(p);
      var r := StripRight(p);
      assert s[..|r|] == p[..|r|];
      forall i | |r| <= i < |s| ensures IsSpace(s[i]) {
        if i < |p| { assert s[i] == p[i]; }
      }
    }
  }

  lemma {:induction false} StripLeftSlice(s: string)
    ensures var r := StripLeft(s);
      && |r| <= |s| && r == s[|s| - |r|..]
      && (r != [] ==> !IsSpace(r[0]))
      && forall i :: 0 <= i < |s| - |r| ==> IsSpace(s[i])
    decreases |s|
  {
    if s != [] && IsSpace(s[0]) {
      StripLeftSlice(s[1..]);
      var r := StripLeft(s[1..]);
      assert s[1..][|s[1..]| - |r|..] == s[|s| - |r|..];
      forall i | 0 <= i < |s| - |r| ensures IsSpace(s[i]) {
        if i > 0 { assert s[i] == s[1..][i - 1]; }
      }
    }
  }

  /**
   * strip() removes exactly the whitespace at both ends: the result is a
   * slice of the input with whitespace only around it and none at its ends.
   */
  lemma StripTrims(s: string)
    ensures var r := Strip(s);
      && (r != [] ==> !IsSpace(r[0]) && !IsSpace(r[|r| - 1]))
      && exists i, j :: 0 <= i <= j <= |s| && r == s[i..j]
           && (forall k :: 0 <= k < i ==> IsSpace(s[k]))
           && (forall k :: j <= k < |s| ==> IsSpace(s[k]))
  {
    var t := StripRight(s);
    var r := StripLeft(t);
    StripRightSlice(s);
    StripLeftSlice(t);
    var i, j := |t| - |r|, |t|;
    assert r == s[i..j];
    forall k | 0 <= k < i ensures IsSpace(s[k]) {
      assert s[k] == t[k];
    }
  }

  lemma {:induction false} DigitsValueLeadingZero(d: string)
    requires IsDigits(d)
    ensures IsDigits("0" + d) && DigitsValue("0" + d) == DigitsValue(d)
    decreases |d|
  {
    var z := "0" + d;
    assert forall i :: 0 <= i < |z| ==> IsDigit(z[i]) by {
      forall i | 0 <= i < |z| ensures IsDigit(z[i]) {
        if i > 0 { assert z[i] == d[i - 1]; }
      }
    }
    if d != [] {
      var p := d[..|d| - 1];
      DigitsValueLeadingZero(p);
      assert z[..|z| - 1] == "0" + p;
      assert z[|z| - 1] == d[|d| - 1];
    }
  }

  /** int() ignores leading zeros: "007" and "7" give the same value, and a string of zeros gives 0. */
  lemma ParseIntLeadingZero(d: string)
    ensures ParseInt("0" + d) == if d == [] then Some(0) else ParseInt(d)
  {
    if IsDigits(d) {
      DigitsValueLeadingZero(d);
    } else {
      var i :| 0 <= i < |d| && !IsDigit(d[i]);
      assert ("0" + d)[i + 1] == d[i];
    }
  }

  /** A line that ends in a space, or the empty line at the end of the stream, carries no length. */
  lemma LengthFieldNeedsToken(line: string)
    requires LastToken(line) == []
    ensures LengthField(line).None?
  {
    assert StripRight([]) == [];
  }

  /** Whatever precedes the last space is ignored: only the number after it counts. */
  lemma LengthFieldLastWord(p: string, n: nat)
    ensures LengthField(p + " " + Decimal(n) + "\n") == Some(n)
  {
    assert (p + " ")[|p + " "| - 1] == ' ';
    assert LastToken(p + " ") == [];
    LengthFieldTail(p + " ", Decimal(n));
    DecimalRoundTrip(n);
  }

  /** Each queued message uses up input, so there are never more messages than characters. */
  lemma {:induction false} PayloadsBound(text: string)
    ensures |Payloads(text)| <= |text|
    decreases |text|
  {
    PayloadsStep(text);
    if ReadFrame(text).Some? {
      PayloadsBound(ReadFrame(text).value.1);
    }
  }
}
