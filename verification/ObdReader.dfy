/** The decoder's own loops, proved against the functions of ObdScan. */
module ObdReader {
  import opened Prelude
  import opened TroubleCodes
  import opened ObdScan

  /** What a loop over the remaining lines adds to the frames already read. */
  function Onto<T>(done: seq<T>, rest: Result<seq<T>, ScanError>): (r: Result<seq<T>, ScanError>)
    ensures done == [] ==> r == rest
    ensures rest == Ok([]) ==> r == Ok(done)
  {
    match rest
    case Err(e) => Err(e)
    case Ok(more) =>
      assert done == [] ==> done + more == more;
      assert more == [] ==> done + more == done;
      Ok(done + more)
  }

  method ReadPayloads(raw: string, command: string, prefix: string) returns (r: Result<seq<Frame>, ScanError>)
    ensures r == Payloads(raw, command, prefix)
  {
    hide ParseLine, Trim, Lines, Without, EndsWithPrompt;
    if |raw| > MAX_RESPONSE || !EndsWithPrompt(raw) { return Err(ResponseIncomplete); }
    var lines := Lines(Without(raw, '>'));
    var frames: seq<Frame> := [];
    assert lines[0..] == lines;
    for i := 0 to |lines|
      invariant ParseLines(lines, command, prefix) == Onto(frames, ParseLines(lines[i..], command, prefix))
    {
      assert lines[i..][1..] == lines[i + 1..];
      var line := Trim(lines[i]);
      if line == [] { continue; }
      match ParseLine(line, command, prefix)
      case Skipped =>
      case Refused(e) => return Err(e);
      case Data(frame) =>
        ghost var rest := ParseLines(lines[i + 1..], command, prefix);
        if rest.Ok? { assert frames + ([frame] + rest.value) == frames + [frame] + rest.value; }
        frames := frames + [frame];
    }
    if frames == [] { return Err(ReadFailed); }
    r := Ok(frames);
  }

  /** One frame's byte pairs. */
  method ReadPairs(bytes: Frame) returns (codes: seq<string>)
    requires |bytes| % 2 == 0
    ensures codes == PairCodes(bytes)
  {
    hide CodeOf, PairCodes;
    codes := [];
    NoPairs([]);
    assert bytes[0..] == bytes;
    var i := 0;
    while i < |bytes|
      invariant 0 <= i <= |bytes| && i % 2 == 0
      invariant PairCodes(bytes) == codes + PairCodes(bytes[i..])
    {
      var a, b := bytes[i], bytes[i + 1];
      OnePair(bytes, i);
      if !(a == 0 && b == 0) {
        codes := codes + [CodeOf(a, b)];
      }
      i := i + 2;
    }
    assert bytes[i..] == [];
  }

  lemma NoPairs(bytes: Frame)
    requires |bytes| < 2
    ensures PairCodes(bytes) == []
  {
  }

  lemma OnePair(bytes: Frame, i: nat)
    requires i + 2 <= |bytes|
    ensures PairCodes(bytes[i..])
         == (if bytes[i] == 0 && bytes[i + 1] == 0 then [] else [CodeOf(bytes[i], bytes[i + 1])]) + PairCodes(bytes[i + 2..])
  {
    hide CodeOf;
    var rest := bytes[i..];
    assert rest[2..] == bytes[i + 2..] && rest[0] == bytes[i] && rest[1] == bytes[i + 1];
  }

  method ReadStoredDtcs(raw: string) returns (r: Result<seq<string>, ScanError>)
    ensures r == DecodeStoredDtcs(raw)
  {
    hide Payloads, PairCodes, Dedupe, CodeOf;
    var payloads := ReadPayloads(raw, "03", "43");
    if payloads.Err? { return Err(payloads.error); }
    var frames := payloads.value;
    var codes: seq<string> := [];
    assert frames[0..] == frames;
    for i := 0 to |frames|
      invariant AllCodes(frames) == Onto(codes, AllCodes(frames[i..]))
    {
      assert frames[i..][1..] == frames[i + 1..];
      var bytes := if frames[i] == [] then [] else frames[i][1..];
      if |bytes| % 2 == 1 {
        var count: int := bytes[0];
        bytes := bytes[1..];
        if count * 2 != |bytes| { return Err(DtcCountMismatch); }
      }
      var found := ReadPairs(bytes);
      ghost var rest := AllCodes(frames[i + 1..]);
      if rest.Ok? { assert codes + (found + rest.value) == codes + found + rest.value; }
      codes := codes + found;
    }
    var distinct := KeepFirst(codes);
    r := Ok(distinct);
  }

  /** Insertion into a set that remembers its order. */
  method KeepFirst(codes: seq<string>) returns (kept: seq<string>)
    ensures kept == Dedupe(codes)
  {
    kept := [];
    for i := 0 to |codes|
      invariant kept == Dedupe(codes[..i])
    {
      assert codes[..i + 1][..i] == codes[..i];
      if codes[i] !in kept { kept := kept + [codes[i]]; }
    }
    assert codes[..|codes|] == codes;
  }
}
