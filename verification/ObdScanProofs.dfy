/** Decoding undoes printing, and whatever is decoded is well-formed. */
module ObdScanProofs {
  import opened Prelude
  import opened TroubleCodes
  import opened ObdScan

  // ---------------------------------------------------------------------------------------------
  // Printed lines

  /** The characters of a printed line. */
  predicate Printed(c: char) { IsHex(c) || c == ' ' }

  lemma {:induction false} PrintedBytes(frame: Frame)
    requires frame != []
    ensures PrintBytes(frame) != []
    ensures IsHex(PrintBytes(frame)[0]) && IsHex(PrintBytes(frame)[|PrintBytes(frame)| - 1])
    ensures forall i :: 0 <= i < |PrintBytes(frame)| ==> Printed(PrintBytes(frame)[i])
  {
    HexInverse(frame[0] / 16);
    HexInverse(frame[0] % 16);
    if |frame| > 1 { PrintedBytes(frame[1..]); }
  }

  /** The hexadecimal digits of a frame, without spaces. */
  function HexOf(frame: Frame): (h: string)
    ensures |h| == 2 * |frame|
  {
    if frame == [] then [] else Hex2(frame[0]) + HexOf(frame[1..])
  }

  lemma {:induction false} HexOfReads(frame: Frame)
    ensures forall i :: 0 <= i < |HexOf(frame)| ==> IsHex(HexOf(frame)[i])
    ensures ParseHex(HexOf(frame)) == frame
  {
    if frame != [] {
      HexInverse(frame[0] / 16);
      HexInverse(frame[0] % 16);
      HexOfReads(frame[1..]);
      assert HexOf(frame)[2..] == HexOf(frame[1..]);
    }
  }

  lemma {:induction false} CompactConcat(a: string, b: string)
    ensures WithoutSpaces(a + b) == WithoutSpaces(a) + WithoutSpaces(b)
  {
    hide IsSpace;
    if a == [] {
      assert a + b == b;
    } else {
      CompactConcat(a[1..], b);
      assert (a + b)[1..] == a[1..] + b && (a + b)[0] == a[0];
    }
  }

  lemma Hex2HasNoSpace(b: Byte)
    ensures WithoutSpaces(Hex2(b)) == Hex2(b)
    ensures WithoutSpaces(" ") == ""
  {
    HexInverse(b / 16);
    HexInverse(b % 16);
    var h, l := HexChar(b / 16), HexChar(b % 16);
    assert Hex2(b) == [h] + [l] && !IsSpace(h) && !IsSpace(l);
    CompactConcat([h], [l]);
    assert WithoutSpaces([h]) == [h] && WithoutSpaces([l]) == [l];
  }

  lemma {:induction false} WithoutSpacesOfPrinted(frame: Frame)
    ensures WithoutSpaces(PrintBytes(frame)) == HexOf(frame)
  {
    if frame != [] {
      Hex2HasNoSpace(frame[0]);
      if |frame| > 1 {
        WithoutSpacesOfPrinted(frame[1..]);
        CompactConcat(Hex2(frame[0]) + [' '], PrintBytes(frame[1..]));
        CompactConcat(Hex2(frame[0]), [' ']);
      } else {
        assert HexOf(frame) == Hex2(frame[0]);
      }
    }
  }

  lemma CompactOfPrinted(frame: Frame)
    ensures Compact(PrintBytes(frame)) == HexOf(frame)
  {
    WithoutSpacesOfPrinted(frame);
    HexOfReads(frame);
    assert Upper(HexOf(frame)) == HexOf(frame);
  }

  lemma TrimOfPrinted(frame: Frame)
    requires frame != []
    ensures Trim(PrintBytes(frame)) == PrintBytes(frame)
  {
    PrintedBytes(frame);
  }

  /** A pattern with a character that printed lines never have does not occur in one. */
  lemma NotContained(line: string, pattern: string, k: nat)
    requires k < |pattern| && !Printed(pattern[k])
    requires forall i :: 0 <= i < |line| ==> Printed(line[i])
    ensures !Contains(line, pattern)
  {
    forall i | 0 <= i <= |line| ensures !OccursAt(line, pattern, i) {
      if i <= |line| - |pattern| {
        assert line[i..i + |pattern|][k] == line[i + k];
      }
    }
  }

  lemma PrintedIsNoFailure(frame: Frame)
    requires frame != []
    ensures !AdapterFailure(PrintBytes(frame)) && PrintBytes(frame) != SEARCHING
  {
    PrintedBytes(frame);
    var line := PrintBytes(frame);
    assert Upper(line) == line;
    NotContained(line, "NO DATA", 0);
    NotContained(line, "STOPPED", 0);
    NotContained(line, "UNABLE TO CONNECT", 0);
    NotContained(line, "BUS ERROR", 1);
    NotContained(line, "CAN ERROR", 2);
    NotContained(line, "ERROR", 1);
    NotContained(line, "?", 0);
    assert SEARCHING[0] == 'S';
  }

  /** A printed frame of the right kind parses to itself. */
  lemma ParsePrintedLine(frame: Frame, command: string, prefix: string)
    requires frame != [] && prefix <= HexOf(frame) && !(prefix <= command)
    ensures ParseLine(PrintBytes(frame), command, prefix) == Data(frame)
  {
    CompactOfPrinted(frame);
    PrintedIsNoFailure(frame);
    HexOfReads(frame);
  }

  // ---------------------------------------------------------------------------------------------
  // Printed responses

  lemma {:induction false} LinesOf(first: string, rest: string)
    requires forall i :: 0 <= i < |first| ==> !IsBreak(first[i])
    ensures Lines(first + ['\r'] + rest) == [first] + Lines(rest)
  {
    var s := first + ['\r'] + rest;
    if first == [] {
      assert s[0] == '\r' && s[1..] == rest;
    } else {
      LinesOf(first[1..], rest);
      assert s[1..] == first[1..] + ['\r'] + rest;
      assert first == [first[0]] + first[1..];
    }
  }

  lemma {:induction false} ParsePrintedLines(frames: seq<Frame>, command: string, prefix: string)
    requires forall i :: 0 <= i < |frames| ==> frames[i] != [] && prefix <= HexOf(frames[i])
    requires !(prefix <= command)
    ensures ParseLines(Lines(PrintLines(frames)), command, prefix) == Ok(frames)
  {
    if frames == [] {
      assert Lines(PrintLines(frames)) == [[]];
    } else {
      var line := PrintBytes(frames[0]);
      PrintedBytes(frames[0]);
      TrimOfPrinted(frames[0]);
      ParsePrintedLine(frames[0], command, prefix);
      LinesOf(line, PrintLines(frames[1..]));
      ParsePrintedLines(frames[1..], command, prefix);
      var lines := [line] + Lines(PrintLines(frames[1..]));
      assert lines[1..] == Lines(PrintLines(frames[1..]));
      assert frames == [frames[0]] + frames[1..];
    }
  }

  lemma {:induction false} PrintLinesChars(frames: seq<Frame>)
    ensures forall i :: 0 <= i < |PrintLines(frames)| ==> Printed(PrintLines(frames)[i]) || PrintLines(frames)[i] == '\r'
  {
    if frames != [] {
      if frames[0] != [] { PrintedBytes(frames[0]); }
      PrintLinesChars(frames[1..]);
    }
  }

  lemma {:induction false} WithoutPrompt(s: string)
    requires forall i :: 0 <= i < |s| ==> s[i] != '>'
    ensures Without(s + ['>'], '>') == s
  {
    if s == [] {
      assert s + ['>'] == ['>'];
    } else {
      WithoutPrompt(s[1..]);
      assert (s + ['>'])[1..] == s[1..] + ['>'];
    }
  }

  lemma {:induction false} TrimLeftKeepsEnd(s: string)
    requires s != [] && !IsSpace(s[|s| - 1])
    ensures TrimLeft(s) != [] && TrimLeft(s)[|TrimLeft(s)| - 1] == s[|s| - 1]
  {
    if IsSpace(s[0]) { TrimLeftKeepsEnd(s[1..]); }
  }

  lemma PrintedEndsWithPrompt(frames: seq<Frame>)
    ensures EndsWithPrompt(PrintResponse(frames))
  {
    TrimLeftKeepsEnd(PrintResponse(frames));
  }

  /** Any frames of the right kind, printed and read back: the same frames, up to the length limit. */
  lemma PayloadsRoundTrip(frames: seq<Frame>, command: string, prefix: string)
    requires frames != [] && !(prefix <= command)
    requires forall i :: 0 <= i < |frames| ==> frames[i] != [] && prefix <= HexOf(frames[i])
    ensures Payloads(PrintResponse(frames), command, prefix)
         == if |PrintResponse(frames)| <= MAX_RESPONSE then Ok(frames) else Err(ResponseIncomplete)
  {
    PrintedEndsWithPrompt(frames);
    PrintLinesChars(frames);
    WithoutPrompt(PrintLines(frames));
    ParsePrintedLines(frames, command, prefix);
  }

  // ---------------------------------------------------------------------------------------------
  // Trouble codes

  lemma ZeroPair()
    ensures CodeOf(0, 0) == "P0000"
  {
  }

  lemma {:induction false} SlotsRoundTrip(slots: seq<Slot>)
    requires forall i :: 0 <= i < |slots| ==> SlotOk(slots[i])
    ensures |SlotBytes(slots)| == 2 * |slots|
    ensures PairCodes(SlotBytes(slots)) == SlotCodes(slots)
  {
    if slots != [] {
      SlotsRoundTrip(slots[1..]);
      assert SlotBytes(slots)[2..] == SlotBytes(slots[1..]);
      if slots[0].Code? {
        CodeToPairToCode(slots[0].code);
        ZeroPair();
      }
    }
  }

  lemma FrameRoundTrip(f: DtcFrame)
    requires FrameOk(f)
    ensures FrameCodes(EncodeFrame(f)) == Ok(SlotCodes(f.slots))
    ensures "43" <= HexOf(EncodeFrame(f))
  {
    SlotsRoundTrip(f.slots);
    var bytes := EncodeFrame(f)[1..];
    if f.counted {
      assert bytes[0] == |f.slots| && bytes[1..] == SlotBytes(f.slots);
    } else {
      assert bytes == SlotBytes(f.slots);
    }
    assert EncodeFrame(f)[0] == 0x43;
    assert Hex2(0x43) == "43";
  }

  lemma {:induction false} FramesRoundTrip(frames: seq<DtcFrame>)
    requires forall i :: 0 <= i < |frames| ==> FrameOk(frames[i])
    ensures AllCodes(EncodeFrames(frames)) == Ok(SentCodes(frames))
  {
    if frames != [] {
      FrameRoundTrip(frames[0]);
      FramesRoundTrip(frames[1..]);
      assert EncodeFrames(frames)[1..] == EncodeFrames(frames[1..]);
    }
  }

  /**
   * Printing any trouble-code frames, counted or not, padded or not, and decoding the response gives
   * the sent codes in first-seen order without duplicates, unless the response is over the length limit.
   */
  lemma DtcRoundTrip(frames: seq<DtcFrame>)
    requires frames != [] && forall i :: 0 <= i < |frames| ==> FrameOk(frames[i])
    ensures DecodeStoredDtcs(PrintResponse(EncodeFrames(frames)))
         == if |PrintResponse(EncodeFrames(frames))| <= MAX_RESPONSE then Ok(Dedupe(SentCodes(frames))) else Err(ResponseIncomplete)
  {
    var encoded := EncodeFrames(frames);
    forall i | 0 <= i < |encoded| ensures encoded[i] != [] && "43" <= HexOf(encoded[i]) {
      FrameRoundTrip(frames[i]);
    }
    assert !("43" <= "03") by { assert "43"[0] != "03"[0]; }
    PayloadsRoundTrip(encoded, "03", "43");
    FramesRoundTrip(frames);
  }

  /** A counted frame whose count is wrong is refused, not guessed at. */
  lemma WrongCountRefused(frame: Frame)
    requires |frame| >= 2 && |frame| % 2 == 0
    ensures FrameCodes(frame) == Err(DtcCountMismatch) <==> frame[1] as int * 2 != |frame| - 2
  {
    assert frame[1..][0] == frame[1];
  }

  lemma {:induction false} PairCodesWellFormed(bytes: Frame)
    ensures forall c :: c in PairCodes(bytes) ==> IsCode(c) && c != "P0000"
  {
    if |bytes| >= 2 {
      PairCodesWellFormed(bytes[2..]);
      PairToCodeToPair(bytes[0], bytes[1]);
      PairToCodeToPair(0, 0);
      ZeroPair();
    }
  }

  lemma {:induction false} AllCodesWellFormed(frames: seq<Frame>)
    ensures AllCodes(frames).Ok? ==> forall c :: c in AllCodes(frames).value ==> IsCode(c) && c != "P0000"
  {
    if frames != [] {
      AllCodesWellFormed(frames[1..]);
      var bytes := if frames[0] == [] then [] else frames[0][1..];
      PairCodesWellFormed(bytes);
      if bytes != [] { PairCodesWellFormed(bytes[1..]); }
    }
  }

  lemma {:induction false} DedupeMeaning(codes: seq<string>)
    ensures Distinct(Dedupe(codes))
    ensures forall c :: c in Dedupe(codes) <==> c in codes
  {
    if codes != [] {
      DedupeMeaning(codes[..|codes| - 1]);
      assert codes == codes[..|codes| - 1] + [codes[|codes| - 1]];
    }
  }

  /** First-seen order: a code stands before another when its first occurrence does. */
  lemma {:induction false} DedupeKeepsPrefixes(codes: seq<string>, n: nat)
    requires n <= |codes|
    ensures Dedupe(codes[..n]) <= Dedupe(codes)
    decreases |codes|
  {
    if n < |codes| {
      DedupeKeepsPrefixes(codes[..|codes| - 1], n);
      assert codes[..|codes| - 1][..n] == codes[..n];
    } else {
      assert codes[..n] == codes;
    }
  }

  /** Whatever text is decoded, the codes are well-formed, distinct, and accepted by the knowledge base. */
  lemma DecodedCodesAccepted(raw: string)
    ensures DecodeStoredDtcs(raw).Ok? ==>
      var codes := DecodeStoredDtcs(raw).value;
      && Distinct(codes)
      && (forall c :: c in codes ==> IsCode(c) && ParseDtc(c).Some? && ParseDtc(c).value.code == c)
      && Synthesize(codes[..Min(|codes|, MAX_CODES)]).invalid == []
      && Codes(Synthesize(codes[..Min(|codes|, MAX_CODES)]).findings) == codes[..Min(|codes|, MAX_CODES)]
  {
    var payloads := Payloads(raw, "03", "43");
    if payloads.Ok? && AllCodes(payloads.value).Ok? {
      var all := AllCodes(payloads.value).value;
      AllCodesWellFormed(payloads.value);
      DedupeMeaning(all);
      var codes := Dedupe(all);
      forall c | c in codes ensures IsCode(c) && ParseDtc(c).Some? && ParseDtc(c).value.code == c {
        ParseAcceptsCodes(c);
      }
      CleanCodesSynthesize(codes[..Min(|codes|, MAX_CODES)]);
    }
  }

  // ---------------------------------------------------------------------------------------------
  // Measurements

  lemma PidPrefix(pid: Pid, data: Frame)
    ensures "41" + PidText(pid) <= HexOf([0x41, PidByte(pid)] + data)
    ensures FindPid(PidText(pid)) == Some(pid)
  {
    var frame := [0x41, PidByte(pid)] + data;
    assert frame[1..][0] == PidByte(pid);
    assert HexOf(frame) == Hex2(0x41) + (Hex2(PidByte(pid)) + HexOf(frame[1..][1..]));
    assert Hex2(0x41) == "41";
    assert Hex2(PidByte(pid)) == PidText(pid) && FindPid(PidText(pid)) == Some(pid);
  }

  /** The answer of one control unit to a measurement request decodes to the reading of its data bytes. */
  lemma PidRoundTrip(pid: Pid, data: Frame)
    requires |data| == PidSize(pid)
    requires |PrintResponse([[0x41, PidByte(pid)] + data])| <= MAX_RESPONSE
    ensures DecodePid(PrintResponse([[0x41, PidByte(pid)] + data]), PidText(pid)) == Ok(ReadingOf(pid, data))
  {
    var frame := [0x41, PidByte(pid)] + data;
    PidPrefix(pid, data);
    assert !("41" + PidText(pid) <= "01" + PidText(pid)) by {
      assert ("41" + PidText(pid))[0] != ("01" + PidText(pid))[0];
    }
    PayloadsRoundTrip([frame], "01" + PidText(pid), "41" + PidText(pid));
    assert frame[2..] == data;
  }

  /** Values of several control units are never merged. */
  lemma SeveralUnitsRefused(pid: Pid, first: Frame, second: Frame)
    requires |PrintResponse([[0x41, PidByte(pid)] + first, [0x41, PidByte(pid)] + second])| <= MAX_RESPONSE
    ensures DecodePid(PrintResponse([[0x41, PidByte(pid)] + first, [0x41, PidByte(pid)] + second]), PidText(pid)) == Err(MultipleEcus)
  {
    PidPrefix(pid, first);
    PidPrefix(pid, second);
    assert !("41" + PidText(pid) <= "01" + PidText(pid)) by {
      assert ("41" + PidText(pid))[0] != ("01" + PidText(pid))[0];
    }
    PayloadsRoundTrip([[0x41, PidByte(pid)] + first, [0x41, PidByte(pid)] + second], "01" + PidText(pid), "41" + PidText(pid));
  }
}
