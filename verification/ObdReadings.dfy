/** What codes and measurements mean, as the inverse of a printer, and which responses are accepted. */
module ObdReadings {
  import opened Prelude
  import opened TroubleCodes
  import opened ObdScan
  import opened ObdScanProofs

  // ---------------------------------------------------------------------------------------------
  // Measurements

  ghost predicate Ascending(s: seq<nat>) { forall i, j :: 0 <= i < j < |s| ==> s[i] < s[j] }

  /** The readings that a request can be answered with. */
  ghost predicate ReadingOk(pid: Pid, r: Reading) {
    match pid
    case Monitor => r.Mil? && r.dtcCount <= 127
    case Coolant => r.CoolantC? && -40 <= r.degrees <= 215
    case Rpm => r.QuarterRpm? && r.quarters <= 65535
    case Speed => r.SpeedKmh? && r.speed <= 255
    case Supported => r.SupportedPids? && Ascending(r.pids) && forall p :: p in r.pids ==> 1 <= p <= 32
  }

  function Bit(b: bool): (n: nat)
    ensures n <= 1
  {
    if b then 1 else 0
  }

  /** Eight requests in one byte, the first in the highest bit. */
  function PidsByte(pids: seq<nat>, first: nat): (b: nat)
    ensures b < 256
  {
    128 * Bit(first in pids) + 64 * Bit(first + 1 in pids) + 32 * Bit(first + 2 in pids) + 16 * Bit(first + 3 in pids)
    + 8 * Bit(first + 4 in pids) + 4 * Bit(first + 5 in pids) + 2 * Bit(first + 6 in pids) + Bit(first + 7 in pids)
  }

  /** A reading as the control unit sends it; the last three bytes of a monitor status are free. */
  ghost function Sent(pid: Pid, r: Reading, rest: (Byte, Byte, Byte)): (data: Frame)
    requires ReadingOk(pid, r)
    ensures |data| == PidSize(pid)
  {
    match pid
    case Monitor => [128 * Bit(r.on) + r.dtcCount, rest.0, rest.1, rest.2]
    case Coolant => [r.degrees + 40]
    case Rpm => [r.quarters / 256, r.quarters % 256]
    case Speed => [r.speed]
    case Supported => [PidsByte(r.pids, 1), PidsByte(r.pids, 9), PidsByte(r.pids, 17), PidsByte(r.pids, 25)]
  }

  lemma QuotientAndRest(v: nat, w: nat)
    requires w > 0
    ensures v / w * w + v % w == v && v % w < w
  {
  }

  lemma ProductAtLeast(k: int, w: nat)
    requires k >= 1
    ensures k * w >= w
  {
    assert (k - 1) * w >= 0;
  }

  lemma SameQuotient(d: int, m: nat, q: int, r: nat, w: nat)
    requires m < w && r < w && d * w + m == q * w + r
    ensures d == q
  {
    assert (d - q) * w == r - m && (q - d) * w == m - r;
    if d > q {
      ProductAtLeast(d - q, w);
    } else if q > d {
      ProductAtLeast(q - d, w);
    }
  }

  lemma QuotientIs(v: nat, w: nat, q: nat, r: nat)
    requires r < w && v == q * w + r
    ensures v / w == q
  {
    QuotientAndRest(v, w);
    SameQuotient(v / w, v % w, q, r, w);
  }

  /** One bit of a number, between the bits above it and those below. */
  lemma BitReads(v: nat, w: nat, high: nat, bit: nat, low: nat)
    requires bit <= 1 && low < w && v == (2 * high + bit) * w + low
    ensures v / w % 2 == bit
  {
    QuotientIs(v, w, 2 * high + bit, low);
  }

  lemma EightBits(v: nat, a: nat, b: nat, c: nat, d: nat, e: nat, f: nat, g: nat, h: nat)
    requires a <= 1 && b <= 1 && c <= 1 && d <= 1 && e <= 1 && f <= 1 && g <= 1 && h <= 1
    requires v == 128 * a + 64 * b + 32 * c + 16 * d + 8 * e + 4 * f + 2 * g + h
    ensures v / 128 % 2 == a && v / 64 % 2 == b && v / 32 % 2 == c && v / 16 % 2 == d
    ensures v / 8 % 2 == e && v / 4 % 2 == f && v / 2 % 2 == g && v / 1 % 2 == h
  {
    BitReads(v, 128, 0, a, 64 * b + 32 * c + 16 * d + 8 * e + 4 * f + 2 * g + h);
    BitReads(v, 64, a, b, 32 * c + 16 * d + 8 * e + 4 * f + 2 * g + h);
    BitReads(v, 32, 2 * a + b, c, 16 * d + 8 * e + 4 * f + 2 * g + h);
    BitReads(v, 16, 4 * a + 2 * b + c, d, 8 * e + 4 * f + 2 * g + h);
    BitReads(v, 8, 8 * a + 4 * b + 2 * c + d, e, 4 * f + 2 * g + h);
    BitReads(v, 4, 16 * a + 8 * b + 4 * c + 2 * d + e, f, 2 * g + h);
    BitReads(v, 2, 32 * a + 16 * b + 8 * c + 4 * d + 2 * e + f, g, h);
    BitReads(v, 1, 64 * a + 32 * b + 16 * c + 8 * d + 4 * e + 2 * f + g, h, 0);
  }

  lemma BitsOfByte(pids: seq<nat>, first: nat)
    ensures
      var v := PidsByte(pids, first);
      && v / 128 % 2 == Bit(first in pids) && v / 64 % 2 == Bit(first + 1 in pids) && v / 32 % 2 == Bit(first + 2 in pids)
      && v / 16 % 2 == Bit(first + 3 in pids) && v / 8 % 2 == Bit(first + 4 in pids) && v / 4 % 2 == Bit(first + 5 in pids)
      && v / 2 % 2 == Bit(first + 6 in pids) && v / 1 % 2 == Bit(first + 7 in pids)
  {
    hide Bit;
    EightBits(PidsByte(pids, first),
              Bit(first in pids), Bit(first + 1 in pids), Bit(first + 2 in pids), Bit(first + 3 in pids),
              Bit(first + 4 in pids), Bit(first + 5 in pids), Bit(first + 6 in pids), Bit(first + 7 in pids));
  }

  lemma BitOfByte(data: Frame, i: nat)
    requires |data| == 4 && 1 <= i <= 32
    ensures
      var v, k := data[(i - 1) / 8], (i - 1) % 8;
      && (k == 0 ==> BitSet(data, i) == (v / 128 % 2 == 1)) && (k == 1 ==> BitSet(data, i) == (v / 64 % 2 == 1))
      && (k == 2 ==> BitSet(data, i) == (v / 32 % 2 == 1)) && (k == 3 ==> BitSet(data, i) == (v / 16 % 2 == 1))
      && (k == 4 ==> BitSet(data, i) == (v / 8 % 2 == 1)) && (k == 5 ==> BitSet(data, i) == (v / 4 % 2 == 1))
      && (k == 6 ==> BitSet(data, i) == (v / 2 % 2 == 1)) && (k == 7 ==> BitSet(data, i) == (v / 1 % 2 == 1))
  {
  }

  lemma BitOfSent(pids: seq<nat>, i: nat)
    requires 1 <= i <= 32
    ensures BitSet([PidsByte(pids, 1), PidsByte(pids, 9), PidsByte(pids, 17), PidsByte(pids, 25)], i) <==> i in pids
  {
    hide PidsByte, BitSet;
    var group, k := (i - 1) / 8, (i - 1) % 8;
    var data: Frame := [PidsByte(pids, 1), PidsByte(pids, 9), PidsByte(pids, 17), PidsByte(pids, 25)];
    assert data[group] == PidsByte(pids, 8 * group + 1);
    assert 8 * group + 1 + k == i;
    BitsOfByte(pids, 8 * group + 1);
    BitOfByte(data, i);
  }

  lemma AscendingPush(s: seq<nat>, n: nat)
    requires Ascending(s) && forall x :: x in s ==> x < n
    ensures Ascending(s + [n])
  {
    forall i, j | 0 <= i < j < |s + [n]| ensures (s + [n])[i] < (s + [n])[j] {
      assert s[i] in s;
    }
  }

  lemma {:induction false} SetBitsMeaning(data: Frame, n: nat)
    requires |data| == 4 && n <= 32
    ensures Ascending(SetBits(data, n))
    ensures forall i :: i in SetBits(data, n) <==> 1 <= i <= n && BitSet(data, i)
  {
    hide BitSet;
    if n > 0 {
      SetBitsMeaning(data, n - 1);
      AscendingPush(SetBits(data, n - 1), n);
    }
  }

  lemma {:induction false} AscendingListsEqual(a: seq<nat>, b: seq<nat>)
    requires Ascending(a) && Ascending(b) && forall x :: x in a <==> x in b
    ensures a == b
  {
    if b != [] { assert b[0] in a; }
    if a != [] {
      assert a[0] in b;
      forall x ensures x in a[1..] <==> x in b[1..] {
        assert x in a[1..] <==> x in a && x != a[0];
        assert x in b[1..] <==> x in b && x != b[0];
      }
      AscendingListsEqual(a[1..], b[1..]);
      assert a == [a[0]] + a[1..] && b == [b[0]] + b[1..];
    }
  }

  /** A sent reading is read back, whatever it is. */
  lemma ReadingRoundTrip(pid: Pid, r: Reading, rest: (Byte, Byte, Byte))
    requires ReadingOk(pid, r)
    ensures ReadingOf(pid, Sent(pid, r, rest)) == r
  {
    if pid == Supported {
      var data := Sent(pid, r, rest);
      hide BitSet, PidsByte;
      SetBitsMeaning(data, 32);
      forall i ensures i in SetBits(data, 32) <==> i in r.pids {
        if 1 <= i <= 32 { BitOfSent(r.pids, i); }
      }
      AscendingListsEqual(SetBits(data, 32), r.pids);
    }
  }

  /** From the printed answer of one control unit the reading comes back. */
  lemma AnswerRoundTrip(pid: Pid, r: Reading, rest: (Byte, Byte, Byte))
    requires ReadingOk(pid, r)
    ensures DecodePid(PrintResponse([[0x41, PidByte(pid)] + Sent(pid, r, rest)]), PidText(pid)) == Ok(r)
  {
    var data := Sent(pid, r, rest);
    AnswerIsShort([0x41, PidByte(pid)] + data);
    hide PrintResponse, ReadingOf, Sent;
    PidRoundTrip(pid, data);
    ReadingRoundTrip(pid, r, rest);
  }

  lemma {:induction false} PrintedLength(frame: Frame)
    ensures |PrintBytes(frame)| <= 3 * |frame|
  {
    if |frame| > 1 { PrintedLength(frame[1..]); }
  }

  lemma AnswerIsShort(frame: Frame)
    requires |frame| <= 6
    ensures |PrintResponse([frame])| <= MAX_RESPONSE
  {
    PrintedLength(frame);
    assert PrintLines([frame]) == PrintBytes(frame) + ['\r'] + PrintLines([]);
  }

  /** The five measurements there are: text, number of data bytes, and nothing else is decoded. */
  lemma OnlyTheseRequests(raw: string, text: string)
    ensures DecodePid(raw, text) == Err(PidNotSupported) <==> text !in {"00", "01", "05", "0C", "0D"}
    ensures DecodePid(raw, text).Ok? ==>
      var frames := Payloads(raw, "01" + text, "41" + text);
      && frames.Ok? && |frames.value| == 1
      && |frames.value[0]| - 2 == (if text in {"00", "01"} then 4 else if text == "0C" then 2 else 1)
  {
    hide Payloads, ReadingOf;
    NeverUnsupported(raw, "01" + text, "41" + text);
  }

  lemma {:induction false} LinesNeverUnsupported(lines: seq<string>, command: string, prefix: string)
    ensures ParseLines(lines, command, prefix) != Err(PidNotSupported)
  {
    hide Trim, Compact, AdapterFailure, HexText, ParseHex;
    if lines != [] { LinesNeverUnsupported(lines[1..], command, prefix); }
  }

  lemma NeverUnsupported(raw: string, command: string, prefix: string)
    ensures Payloads(raw, command, prefix) != Err(PidNotSupported)
  {
    hide ParseLines, Lines, Without, EndsWithPrompt;
    LinesNeverUnsupported(Lines(Without(raw, '>')), command, prefix);
  }

  // ---------------------------------------------------------------------------------------------
  // Codes

  /** How a code is spelled: two bits of system, two bits of digit, and three hexadecimal digits. */
  lemma CodeSpelled(a: Byte, b: Byte)
    ensures var c := CodeOf(a, b);
      && |c| == 5 && c[0] == (if a < 0x40 then 'P' else if a < 0x80 then 'C' else if a < 0xC0 then 'B' else 'U')
      && c[1] as int == '0' as int + a / 16 % 4 && Digit(c[2], a % 16) && Digit(c[3], b / 16) && Digit(c[4], b % 16)
  {
    DigitOf(a / 16 % 4);
    DigitOf(a % 16);
    DigitOf(b / 16);
    DigitOf(b % 16);
  }

  /** The character of a hexadecimal digit. */
  predicate Digit(c: char, n: nat) {
    if n < 10 then c as int == '0' as int + n else c as int == 'A' as int + (n - 10)
  }

  lemma DigitOf(n: nat)
    requires n < 16
    ensures Digit(HexChar(n), n)
  {
  }

  /** The blanks: tab to carriage return, the space, the no-break space and the other Unicode spaces and line ends. */
  lemma Blanks(c: char)
    ensures IsSpace(c) <==>
      c as int in {0x09, 0x0A, 0x0B, 0x0C, 0x0D, 0x20, 0xA0, 0x1680, 0x2000, 0x2001, 0x2002, 0x2003, 0x2004, 0x2005, 0x2006,
                   0x2007, 0x2008, 0x2009, 0x200A, 0x2028, 0x2029, 0x202F, 0x205F, 0x3000, 0xFEFF}
  {
  }

  /** Upper case: the small letters, each by its own capital, and nothing else. */
  lemma Capitals(c: char)
    ensures UpperChar(c) == if c in "abcdefghijklmnopqrstuvwxyz" then (c as int - 0x20) as char else c
  {
    var small := "abcdefghijklmnopqrstuvwxyz";
    assert forall i :: 0 <= i < 26 ==> small[i] as int == 0x61 + i;
    if 0x61 <= c as int <= 0x7A { assert small[c as int - 0x61] == c; }
  }

  predicate Blank(s: string) { forall i :: 0 <= i < |s| ==> IsSpace(s[i]) }

  lemma {:induction false} TrimLeftCuts(pre: string, mid: string)
    requires Blank(pre) && mid != [] && !IsSpace(mid[0])
    ensures TrimLeft(pre + mid) == mid
  {
    hide IsSpace;
    if pre == [] {
      assert pre + mid == mid;
    } else {
      TrimLeftCuts(pre[1..], mid);
      assert (pre + mid)[1..] == pre[1..] + mid && (pre + mid)[0] == pre[0];
    }
  }

  lemma {:induction false} TrimRightCuts(mid: string, post: string)
    requires Blank(post) && mid != [] && !IsSpace(mid[|mid| - 1])
    ensures TrimRight(mid + post) == mid
  {
    hide IsSpace;
    if post == [] {
      assert mid + post == mid;
    } else {
      var n := |post| - 1;
      TrimRightCuts(mid, post[..n]);
      assert (mid + post)[..|mid + post| - 1] == mid + post[..n] && (mid + post)[|mid + post| - 1] == post[n];
    }
  }

  /** Blanks around a text are cut off, and nothing else. */
  lemma TrimCuts(pre: string, mid: string, post: string)
    requires Blank(pre) && Blank(post) && mid != [] && !IsSpace(mid[0]) && !IsSpace(mid[|mid| - 1])
    ensures Trim(pre + mid + post) == mid
  {
    hide IsSpace;
    assert pre + mid + post == pre + (mid + post);
    TrimLeftCuts(pre, mid + post);
    TrimRightCuts(mid, post);
  }

  /** A code in either case, with blanks around it, is classified by its letter and its first digit. */
  lemma CodeClassified(pre: string, written: string, post: string)
    requires Blank(pre) && Blank(post) && IsCode(Upper(written))
    ensures
      var f, code := ParseDtc(pre + written + post), Upper(written);
      && f.Some? && f.value.code == code
      && f.value.domain == (match code[0] case 'P' => Powertrain case 'B' => Body case 'C' => Chassis case _ => Network)
      && (f.value.manufacturerSpecific <==> code[1] == '1' || code[1] == (if code[0] == 'P' then '3' else '2'))
  {
    CodeHasNoBlankEnds(written);
    TrimCuts(pre, written, post);
  }

  lemma CodeHasNoBlankEnds(written: string)
    requires IsCode(Upper(written))
    ensures written != [] && !IsSpace(written[0]) && !IsSpace(written[|written| - 1])
  {
    assert Upper(written)[0] == UpperChar(written[0]) && Upper(written)[4] == UpperChar(written[4]);
  }

  lemma {:induction false} TrimLeftIsSuffix(s: string) returns (pre: string)
    ensures Blank(pre) && s == pre + TrimLeft(s)
  {
    pre := [];
    if s != [] && IsSpace(s[0]) {
      var more := TrimLeftIsSuffix(s[1..]);
      pre := [s[0]] + more;
      assert s == [s[0]] + s[1..];
    }
  }

  lemma {:induction false} TrimRightIsPrefix(s: string) returns (post: string)
    ensures Blank(post) && s == TrimRight(s) + post
  {
    post := [];
    if s != [] && IsSpace(s[|s| - 1]) {
      var more := TrimRightIsPrefix(s[..|s| - 1]);
      post := more + [s[|s| - 1]];
      assert s == s[..|s| - 1] + [s[|s| - 1]];
    }
  }

  /** Nothing else is classified: whatever is accepted is a code in either case between blanks. */
  lemma OnlyCodesClassified(raw: string) returns (pre: string, written: string, post: string)
    requires ParseDtc(raw).Some?
    ensures raw == pre + written + post && Blank(pre) && Blank(post) && IsCode(Upper(written))
  {
    pre := TrimLeftIsSuffix(raw);
    post := TrimRightIsPrefix(TrimLeft(raw));
    written := Trim(raw);
  }

  // ---------------------------------------------------------------------------------------------
  // Responses

  lemma HexOfPair(c: char, d: char)
    requires IsHex(c) && IsHex(d)
    ensures Hex2(HexVal(c) * 16 + HexVal(d)) == [c, d]
  {
    hide HexChar, HexVal;
    Nibbles(HexVal(c), HexVal(d));
    HexInverseBack(c);
    HexInverseBack(d);
  }

  lemma HexOfCons(b: Byte, frame: Frame)
    ensures HexOf([b] + frame) == Hex2(b) + HexOf(frame)
  {
    hide Hex2;
    assert ([b] + frame)[1..] == frame;
  }

  lemma {:induction false} HexOfParsed(h: string)
    requires |h| % 2 == 0 && forall i :: 0 <= i < |h| ==> IsHex(h[i])
    ensures HexOf(ParseHex(h)) == h
  {
    if h != [] {
      var b: Byte := HexVal(h[0]) * 16 + HexVal(h[1]);
      HexOfParsed(h[2..]);
      HexOfPair(h[0], h[1]);
      HexOfCons(b, ParseHex(h[2..]));
      assert h == [h[0], h[1]] + h[2..];
    }
  }

  /** Whatever is accepted has the prompt, the length and, in every frame, the expected prefix. */
  lemma AcceptedPayloads(raw: string, command: string, prefix: string)
    ensures Payloads(raw, command, prefix) == Err(ResponseIncomplete) <==> |raw| > 16384 || !EndsWithPrompt(raw)
    ensures Payloads(raw, command, prefix).Ok? ==>
      var frames := Payloads(raw, command, prefix).value;
      frames != [] && forall i :: 0 <= i < |frames| ==> prefix <= HexOf(frames[i])
  {
    hide ParseLines, Lines, Without, EndsWithPrompt;
    AcceptedLines(Lines(Without(raw, '>')), command, prefix);
  }

  lemma {:induction false} AcceptedLines(lines: seq<string>, command: string, prefix: string)
    ensures ParseLines(lines, command, prefix) != Err(ResponseIncomplete)
    ensures ParseLines(lines, command, prefix).Ok? ==>
      forall i :: 0 <= i < |ParseLines(lines, command, prefix).value| ==> prefix <= HexOf(ParseLines(lines, command, prefix).value[i])
  {
    hide Trim, Compact, AdapterFailure, ParseHex, HexOf;
    if lines != [] {
      AcceptedLines(lines[1..], command, prefix);
      var hex := Compact(Trim(lines[0]));
      if HexText(hex) { HexOfParsed(hex); }
    }
  }

  lemma SkippedLine(line: string, after: seq<string>, command: string, prefix: string)
    requires Trim(line) == "" || Trim(line) == "SEARCHING..." || Compact(Trim(line)) == command
    ensures ParseLines([line] + after, command, prefix) == ParseLines(after, command, prefix)
  {
    hide Trim, Compact, AdapterFailure, HexText, ParseHex;
    assert ([line] + after)[1..] == after;
  }

  lemma SameAfterLine(line: string, a: seq<string>, b: seq<string>, command: string, prefix: string)
    requires ParseLines(a, command, prefix) == ParseLines(b, command, prefix)
    ensures ParseLines([line] + a, command, prefix) == ParseLines([line] + b, command, prefix)
  {
    hide Trim, ParseLine;
    assert ([line] + a)[1..] == a && ([line] + b)[1..] == b;
  }

  /** An echo of the request, the adapter's progress message and an empty line change nothing. */
  lemma {:induction false} EchoIgnored(before: seq<string>, line: string, after: seq<string>, command: string, prefix: string)
    requires Trim(line) == "" || Trim(line) == "SEARCHING..." || Compact(Trim(line)) == command
    ensures ParseLines(before + [line] + after, command, prefix) == ParseLines(before + after, command, prefix)
  {
    hide ParseLines, Trim, Compact;
    if before == [] {
      assert before + after == after && before + [line] + after == [line] + after;
      SkippedLine(line, after, command, prefix);
    } else {
      var first, rest := before[0], before[1..];
      EchoIgnored(rest, line, after, command, prefix);
      SameAfterLine(first, rest + [line] + after, rest + after, command, prefix);
      assert before + [line] + after == [first] + (rest + [line] + after) && before + after == [first] + (rest + after);
    }
  }

  /** The words by which an adapter reports a failure. */
  predicate FailureWord(w: string) {
    w in {"NO DATA", "STOPPED", "UNABLE TO CONNECT", "BUS ERROR", "CAN ERROR", "ERROR", "?"}
  }

  lemma WordIsFailure(pre: string, written: string, post: string)
    requires FailureWord(Upper(written))
    ensures AdapterFailure(pre + written + post)
  {
    var line := Upper(pre + written + post);
    var word := Upper(written);
    assert line[|pre|..|pre| + |word|] == word;
    assert OccursAt(line, word, |pre|);
    assert Contains(line, word);
  }

  /** A line with a failure word, in either case, spoils the response: no result is given. */
  lemma {:induction false} FailureSpoils(before: seq<string>, line: string, after: seq<string>, command: string, prefix: string)
    requires AdapterFailure(Trim(line)) && Trim(line) != "" && Trim(line) != "SEARCHING..." && Compact(Trim(line)) != command
    ensures ParseLines(before + [line] + after, command, prefix).Err?
    ensures before == [] ==> ParseLines(before + [line] + after, command, prefix) == Err(ReadFailed)
  {
    hide Trim, Compact, AdapterFailure, HexText, ParseHex;
    if before == [] {
      assert (before + [line] + after)[0] == line;
    } else {
      FailureSpoils(before[1..], line, after, command, prefix);
      assert (before + [line] + after)[1..] == before[1..] + [line] + after;
    }
  }
}
