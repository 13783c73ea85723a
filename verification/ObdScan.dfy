/**
 * The decoder of diagnostic responses (cloudflare/obd-scan.js): headerless lines of hexadecimal
 * bytes up to the adapter's prompt, as in mode 03 and mode 01 of SAE J1979.
 */
module ObdScan {
  import opened Prelude
  import opened TroubleCodes

  datatype ScanError =
    | ResponseIncomplete | ReadFailed | ResponseUnsupported | DtcCountMismatch
    | PidNotSupported | MultipleEcus | PidLengthMismatch

  type Frame = seq<Byte>

  const MAX_RESPONSE := 16384
  const SEARCHING := "SEARCHING..."

  // ---------------------------------------------------------------------------------------------
  // Lines

  predicate IsBreak(c: char) { c == '\r' || c == '\n' }

  /** The text cut at every line break; a run of breaks leaves empty pieces, which are dropped later. */
  function Lines(s: string): (lines: seq<string>)
    ensures lines != []
  {
    if s == [] then [[]]
    else if IsBreak(s[0]) then [[]] + Lines(s[1..])
    else
      var rest := Lines(s[1..]);
      [[s[0]] + rest[0]] + rest[1..]
  }

  /** The text without a given character. */
  function Without(s: string, c: char): string {
    if s == [] then [] else (if s[0] == c then [] else [s[0]]) + Without(s[1..], c)
  }

  function WithoutSpaces(s: string): string {
    if s == [] then [] else (if IsSpace(s[0]) then [] else [s[0]]) + WithoutSpaces(s[1..])
  }

  function Compact(line: string): string { Upper(WithoutSpaces(line)) }

  predicate OccursAt(s: string, pattern: string, i: nat) {
    i <= |s| - |pattern| && s[i..i + |pattern|] == pattern
  }

  predicate Contains(s: string, pattern: string) {
    exists i :: 0 <= i <= |s| && OccursAt(s, pattern, i)
  }

  /** The adapter's own words for a failed read, in any case of letters. */
  predicate AdapterFailure(line: string) {
    var l := Upper(line);
    Contains(l, "NO DATA") || Contains(l, "STOPPED") || Contains(l, "UNABLE TO CONNECT")
    || Contains(l, "BUS ERROR") || Contains(l, "CAN ERROR") || Contains(l, "ERROR") || Contains(l, "?")
  }

  predicate HexText(h: string) {
    h != [] && |h| % 2 == 0 && forall i :: 0 <= i < |h| ==> IsHex(h[i])
  }

  function ParseHex(h: string): Frame
    requires |h| % 2 == 0 && forall i :: 0 <= i < |h| ==> IsHex(h[i])
  {
    if h == [] then [] else [HexVal(h[0]) * 16 + HexVal(h[1])] + ParseHex(h[2..])
  }

  datatype LineResult = Skipped | Data(frame: Frame) | Refused(error: ScanError)

  /** One line: an echo or a progress message, a frame, or a reason to give up. */
  function ParseLine(line: string, command: string, prefix: string): LineResult {
    var hex := Compact(line);
    if hex == command || line == SEARCHING then Skipped
    else if AdapterFailure(line) then Refused(ReadFailed)
    else if !HexText(hex) || !(prefix <= hex) then Refused(ResponseUnsupported)
    else Data(ParseHex(hex))
  }

  /** The frames of trimmed, non-empty lines, or the first refusal. */
  function ParseLines(lines: seq<string>, command: string, prefix: string): Result<seq<Frame>, ScanError> {
    if lines == [] then Ok([])
    else
      var line := Trim(lines[0]);
      if line == [] then ParseLines(lines[1..], command, prefix)
      else
        match ParseLine(line, command, prefix)
        case Refused(e) => Err(e)
        case Skipped => ParseLines(lines[1..], command, prefix)
        case Data(f) =>
          match ParseLines(lines[1..], command, prefix)
          case Err(e) => Err(e)
          case Ok(fs) => Ok([f] + fs)
  }

  predicate EndsWithPrompt(raw: string) {
    var t := Trim(raw);
    t != [] && t[|t| - 1] == '>'
  }

  function Payloads(raw: string, command: string, prefix: string): Result<seq<Frame>, ScanError> {
    if |raw| > MAX_RESPONSE || !EndsWithPrompt(raw) then Err(ResponseIncomplete)
    else
      match ParseLines(Lines(Without(raw, '>')), command, prefix)
      case Err(e) => Err(e)
      case Ok(fs) => if fs == [] then Err(ReadFailed) else Ok(fs)
  }

  // ---------------------------------------------------------------------------------------------
  // Trouble codes

  /** The codes of byte pairs, without the padding pair 00 00. */
  function PairCodes(bytes: Frame): seq<string> {
    if |bytes| < 2 then []
    else (if bytes[0] == 0 && bytes[1] == 0 then [] else [CodeOf(bytes[0], bytes[1])]) + PairCodes(bytes[2..])
  }

  /** The codes of one frame; an odd number of bytes starts with a count that must match. */
  function FrameCodes(frame: Frame): Result<seq<string>, ScanError> {
    var bytes := if frame == [] then [] else frame[1..];
    if |bytes| % 2 == 1 then
      if bytes[0] as int * 2 != |bytes| - 1 then Err(DtcCountMismatch) else Ok(PairCodes(bytes[1..]))
    else Ok(PairCodes(bytes))
  }

  function AllCodes(frames: seq<Frame>): Result<seq<string>, ScanError> {
    if frames == [] then Ok([])
    else
      match FrameCodes(frames[0])
      case Err(e) => Err(e)
      case Ok(codes) =>
        match AllCodes(frames[1..])
        case Err(e) => Err(e)
        case Ok(rest) => Ok(codes + rest)
  }

  /** First-seen order, each code once. */
  function Dedupe(codes: seq<string>): seq<string> {
    if codes == [] then []
    else
      var before := Dedupe(codes[..|codes| - 1]);
      if codes[|codes| - 1] in before then before else before + [codes[|codes| - 1]]
  }

  function DecodeStoredDtcs(raw: string): Result<seq<string>, ScanError> {
    match Payloads(raw, "03", "43")
    case Err(e) => Err(e)
    case Ok(frames) =>
      match AllCodes(frames)
      case Err(e) => Err(e)
      case Ok(codes) => Ok(Dedupe(codes))
  }

  // ---------------------------------------------------------------------------------------------
  // Measurements

  datatype Pid = Supported | Monitor | Coolant | Rpm | Speed

  function PidText(pid: Pid): string {
    match pid case Supported => "00" case Monitor => "01" case Coolant => "05" case Rpm => "0C" case Speed => "0D"
  }

  function PidByte(pid: Pid): Byte {
    match pid case Supported => 0x00 case Monitor => 0x01 case Coolant => 0x05 case Rpm => 0x0C case Speed => 0x0D
  }

  function PidSize(pid: Pid): nat {
    match pid case Supported => 4 case Monitor => 4 case Coolant => 1 case Rpm => 2 case Speed => 1
  }

  datatype Reading =
    | Mil(on: bool, dtcCount: nat)
    | CoolantC(degrees: int)
    | QuarterRpm(quarters: nat)
    | SpeedKmh(speed: nat)
    | SupportedPids(pids: seq<nat>)

  /** Whether bit number `i` of 1..32, counted from the most significant, is set in four bytes. */
  predicate BitSet(data: Frame, i: nat)
    requires |data| == 4 && 1 <= i <= 32
  {
    var shift := [128, 64, 32, 16, 8, 4, 2, 1][(i - 1) % 8];
    data[(i - 1) / 8] / shift % 2 == 1
  }

  function SetBits(data: Frame, n: nat): seq<nat>
    requires |data| == 4 && n <= 32
  {
    if n == 0 then [] else SetBits(data, n - 1) + if BitSet(data, n) then [n] else []
  }

  /** What the data bytes of a measurement mean; engine speed is kept in quarters of a revolution. */
  function ReadingOf(pid: Pid, data: Frame): Reading
    requires |data| == PidSize(pid)
  {
    match pid
    case Monitor => Mil(data[0] >= 128, data[0] % 128)
    case Coolant => CoolantC(data[0] as int - 40)
    case Rpm => QuarterRpm(data[0] as int * 256 + data[1])
    case Speed => SpeedKmh(data[0])
    case Supported => SupportedPids(SetBits(data, 32))
  }

  function FindPid(text: string): Option<Pid> {
    if text == "00" then Some(Supported) else if text == "01" then Some(Monitor) else if text == "05" then Some(Coolant)
    else if text == "0C" then Some(Rpm) else if text == "0D" then Some(Speed) else None
  }

  function DecodePid(raw: string, text: string): Result<Reading, ScanError> {
    if FindPid(text).None? then Err(PidNotSupported)
    else
      var pid := FindPid(text).value;
      match Payloads(raw, "01" + text, "41" + text)
      case Err(e) => Err(e)
      case Ok(frames) =>
        if |frames| != 1 then Err(MultipleEcus)
        else if |frames[0]| != PidSize(pid) + 2 then Err(PidLengthMismatch)
        else Ok(ReadingOf(pid, frames[0][2..]))
  }

  // ---------------------------------------------------------------------------------------------
  // Printing, as an adapter with headers off and spaces on does

  function PrintBytes(frame: Frame): string {
    if frame == [] then []
    else if |frame| == 1 then Hex2(frame[0])
    else Hex2(frame[0]) + [' '] + PrintBytes(frame[1..])
  }

  function PrintLines(frames: seq<Frame>): string {
    if frames == [] then [] else PrintBytes(frames[0]) + ['\r'] + PrintLines(frames[1..])
  }

  function PrintResponse(frames: seq<Frame>): string { PrintLines(frames) + ['>'] }

  /** A place in a trouble-code frame: a code, or the padding pair. */
  datatype Slot = Pad | Code(code: string)

  /** A trouble-code frame, sent with or without a count of its slots. */
  datatype DtcFrame = DtcFrame(slots: seq<Slot>, counted: bool)

  predicate SlotOk(s: Slot) { s.Code? ==> IsCode(s.code) && s.code != "P0000" }

  predicate FrameOk(f: DtcFrame) {
    (forall i :: 0 <= i < |f.slots| ==> SlotOk(f.slots[i])) && (f.counted ==> |f.slots| < 256)
  }

  function SlotPair(s: Slot): Frame
    requires SlotOk(s)
  {
    if s.Pad? then [0, 0] else [BytesOf(s.code).0, BytesOf(s.code).1]
  }

  function SlotBytes(slots: seq<Slot>): Frame
    requires forall i :: 0 <= i < |slots| ==> SlotOk(slots[i])
  {
    if slots == [] then [] else SlotPair(slots[0]) + SlotBytes(slots[1..])
  }

  function EncodeFrame(f: DtcFrame): Frame
    requires FrameOk(f)
  {
    [0x43] + (if f.counted then [|f.slots|] else []) + SlotBytes(f.slots)
  }

  function EncodeFrames(frames: seq<DtcFrame>): (r: seq<Frame>)
    requires forall i :: 0 <= i < |frames| ==> FrameOk(frames[i])
    ensures |r| == |frames| && forall i :: 0 <= i < |frames| ==> r[i] == EncodeFrame(frames[i])
  {
    seq(|frames|, i requires 0 <= i < |frames| => EncodeFrame(frames[i]))
  }

  function SlotCodes(slots: seq<Slot>): seq<string> {
    if slots == [] then [] else (if slots[0].Code? then [slots[0].code] else []) + SlotCodes(slots[1..])
  }

  function SentCodes(frames: seq<DtcFrame>): seq<string> {
    if frames == [] then [] else SlotCodes(frames[0].slots) + SentCodes(frames[1..])
  }
}
