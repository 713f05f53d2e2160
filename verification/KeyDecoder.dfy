// Shortcut keys among terminal escape sequences (serve_keyboard_keys.rs).

module KeyDecoder {
  import opened Common

  const ESC: Byte := 0x1b
  const BEL: Byte := 0x07
  const BACKSLASH: Byte := 0x5c
  const TILDE: Byte := 0x7e
  const SEQUENCE_LIMIT: nat := 128

  /** `ESC [ 2 0 0 ~` begins a paste, `ESC [ 2 0 1 ~` ends it. */
  const PASTE: seq<Byte> := [ESC, 0x5b, 0x32, 0x30, 0x30, TILDE]
  const END: seq<Byte> := [ESC, 0x5b, 0x32, 0x30, 0x31, TILDE]

  datatype State =
    | Plain | Escape | Sequence | SingleShift | Mouse(remaining: nat) | String | StringEscape | Paste(matched: nat)

  /** An ASCII shortcut with its modifiers, or a key that the terminal reported as a sequence. */
  datatype Key = Shortcut(character: Byte, control: bool, alt: bool) | Reported(sequence: seq<Byte>)

  datatype Decoder = Decoder(state: State, sequence: seq<Byte>)

  const START := Decoder(Plain, [])

  /** The states that a decoder can reach. */
  predicate Valid(d: Decoder) {
    && (d.state.Mouse? ==> 1 <= d.state.remaining <= 3)
    && (d.state.Paste? ==> d.state.matched < |END|)
    && |d.sequence| <= SEQUENCE_LIMIT
  }

  function Ascii(byte: Byte, alt: bool): Option<Key> {
    if 0x01 <= byte <= 0x1a && byte != 0x09 && byte != 0x0d then Some(Shortcut(byte - 1 + 0x61, true, alt))
    else if byte in {0x71, 0x63, 0x6f, 0x68, 0x72} then Some(Shortcut(byte, false, alt))
    else None
  }

  function Introduced(byte: Byte): State {
    if byte == 0x5b then Sequence
    else if byte == 0x4f then SingleShift
    else if byte in {0x5d, 0x50, 0x58, 0x5e, 0x5f} then String
    else Plain
  }

  predicate IsFinal(byte: Byte) { 0x40 <= byte <= 0x7e }

  function Finished(byte: Byte, sequence: seq<Byte>): State {
    if byte == TILDE && sequence == [0x32, 0x30, 0x30] then Paste(0)
    else if byte == 0x4d && sequence == [] then Mouse(3)
    else Plain
  }

  /** How much of the paste's end is matched after one more byte; a mismatch falls back one step at most. */
  function Matched(matched: nat, byte: Byte): nat
    requires matched < |END|
  {
    if byte == END[matched] then matched + 1 else if byte == ESC then 1 else 0
  }

  /** One byte; `reported` decides which terminal reports are keys. */
  function Next(d: Decoder, byte: Byte, reported: seq<Byte> -> Option<Key>): (r: (Decoder, Option<Key>))
    requires Valid(d)
    ensures Valid(r.0)
    ensures d.state.Paste? ==> r.1 == None
  {
    match d.state
    case Plain => if byte == ESC then (d.(state := Escape), None) else (d, Ascii(byte, false))
    case Escape => (Decoder(Introduced(byte), []), if Introduced(byte).Plain? then Ascii(byte, true) else None)
    case Sequence =>
      if IsFinal(byte)
      then (d.(state := Finished(byte, d.sequence)), if byte == 0x75 then reported(d.sequence) else None)
      else if |d.sequence| < SEQUENCE_LIMIT then (d.(sequence := d.sequence + [byte]), None)
      else (d, None)
    case SingleShift => (d.(state := Plain), None)
    case Mouse(remaining) => (d.(state := if remaining == 1 then Plain else Mouse(remaining - 1)), None)
    case String => (d.(state := if byte == BEL then Plain else if byte == ESC then StringEscape else String), None)
    case StringEscape => (d.(state := if byte == BACKSLASH then Plain else String), None)
    case Paste(matched) =>
      var now := Matched(matched, byte);
      (d.(state := if now == |END| then Plain else Paste(now)), None)
  }

  class KeyDecoder {
    var state: State
    var sequence: seq<Byte>
    const reported: seq<Byte> -> Option<Key>

    constructor (reported: seq<Byte> -> Option<Key>)
      ensures this.reported == reported && Value() == START && Valid(Value())
    {
      this.reported := reported;
      state, sequence := Plain, [];
    }

    function Value(): Decoder
      reads this
    {
      Decoder(state, sequence)
    }

    /** The fields after a byte are those of `Next`, and so is the key. */
    method Push(byte: Byte) returns (key: Option<Key>)
      requires Valid(Value())
      modifies this
      ensures Valid(Value())
      ensures (Value(), key) == Next(old(Value()), byte, reported)
    {
      key := None;
      match state
      case Plain =>
        if byte == ESC { state := Escape; } else { key := Ascii(byte, false); }
      case Escape =>
        sequence := [];
        state := Introduced(byte);
        if state.Plain? { key := Ascii(byte, true); }
      case Sequence =>
        if IsFinal(byte) {
          state := Finished(byte, sequence);
          if byte == 0x75 { key := reported(sequence); }
        } else if |sequence| < SEQUENCE_LIMIT {
          sequence := sequence + [byte];
        }
      case SingleShift => state := Plain;
      case Mouse(remaining) => state := if remaining == 1 then Plain else Mouse(remaining - 1);
      case String =>
        if byte == BEL { state := Plain; } else if byte == ESC { state := StringEscape; }
      case StringEscape => state := if byte == BACKSLASH then Plain else String;
      case Paste(matched) =>
        var now := if byte == END[matched] then matched + 1 else if byte == ESC then 1 else 0;
        state := if now == |END| then Plain else Paste(now);
    }
  }

  // ----- whole streams -----

  /** The decoder after some bytes, and the keys on the way. */
  function Run(d: Decoder, bytes: seq<Byte>, reported: seq<Byte> -> Option<Key>): (r: (Decoder, seq<Key>))
    requires Valid(d)
    ensures Valid(r.0)
  {
    if |bytes| == 0 then (d, [])
    else
      var before := Run(d, bytes[..|bytes| - 1], reported);
      var step := Next(before.0, bytes[|bytes| - 1], reported);
      (step.0, before.1 + if step.1.Some? then [step.1.value] else [])
  }

  lemma {:induction false} RunThen(d: Decoder, first: seq<Byte>, second: seq<Byte>, reported: seq<Byte> -> Option<Key>)
    requires Valid(d)
    ensures
      var r := Run(d, first, reported);
      var s := Run(r.0, second, reported);
      Run(d, first + second, reported).0 == s.0 && Run(d, first + second, reported).1 == r.1 + s.1
    decreases |second|
  {
    hide Next;
    if |second| == 0 {
      assert first + second == first;
    } else {
      RunThen(d, first, second[..|second| - 1], reported);
      var all := first + second;
      assert all[..|all| - 1] == first + second[..|second| - 1] && all[|all| - 1] == second[|second| - 1];
    }
  }

  // ----- pastes -----

  predicate EndsWith(s: seq<Byte>, t: seq<Byte>) {
    |t| <= |s| && s[|s| - |t|..] == t
  }

  /** No prefix of the bytes ends with the paste's end: it does not occur in them. */
  ghost predicate Unended(bytes: seq<Byte>) {
    forall i :: 0 <= i <= |bytes| ==> !EndsWith(bytes[..i], END)
  }

  /** The longest proper beginning of the paste's end that the bytes end with. */
  ghost predicate Longest(bytes: seq<Byte>, m: nat) {
    && m < |END| && EndsWith(bytes, END[..m])
    && forall k :: m < k < |END| ==> !EndsWith(bytes, END[..k])
  }

  lemma EndsWithByte(bytes: seq<Byte>, byte: Byte, k: nat)
    requires 0 < k <= |END|
    ensures EndsWith(bytes + [byte], END[..k]) <==> EndsWith(bytes, END[..k - 1]) && byte == END[k - 1]
  {
    var all := bytes + [byte];
    assert END[..k] == END[..k - 1] + [END[k - 1]];
    if k <= |all| {
      assert all[|all| - k..] == bytes[|bytes| - (k - 1)..] + [byte];
    }
  }

  /** The paste's end overlaps itself nowhere: its first byte does not occur again. */
  lemma NoBorder(bytes: seq<Byte>, short: nat, long: nat)
    requires short < long < |END| && EndsWith(bytes, END[..short]) && EndsWith(bytes, END[..long])
    ensures short == 0
  {
    if short > 0 {
      EndByte(bytes, short, 0);
      EndByte(bytes, long, long - short);
    }
  }

  lemma EndByte(bytes: seq<Byte>, k: nat, i: nat)
    requires i < k <= |END| && EndsWith(bytes, END[..k])
    ensures bytes[|bytes| - k + i] == END[i]
  {
  }

  /** The one-step fallback finds the longest match. */
  lemma MatchedIsLongest(bytes: seq<Byte>, m: nat, byte: Byte)
    requires Longest(bytes, m)
    ensures Matched(m, byte) == |END| <==> EndsWith(bytes + [byte], END)
    ensures Matched(m, byte) < |END| ==> Longest(bytes + [byte], Matched(m, byte))
  {
    var all := bytes + [byte];
    assert END[..|END|] == END;
    forall k | 0 < k <= |END|
      ensures EndsWith(all, END[..k]) <==> EndsWith(bytes, END[..k - 1]) && byte == END[k - 1]
      ensures EndsWith(all, END[..k]) && k - 1 != m ==> k == 1 && byte == ESC
    {
      EndsWithByte(bytes, byte, k);
      if EndsWith(all, END[..k]) && k - 1 < m { NoBorder(bytes, k - 1, m); }
    }
    assert EndsWith(all, END[..0]);
  }

  /** Until its end occurs, a paste goes on and yields no key. */
  lemma {:induction false} PasteGoesOn(d: Decoder, bytes: seq<Byte>, reported: seq<Byte> -> Option<Key>)
    requires d.state == Paste(0) && Valid(d) && Unended(bytes)
    ensures
      var r := Run(d, bytes, reported);
      r.0.state.Paste? && Longest(bytes, r.0.state.matched) && r.0.sequence == d.sequence && r.1 == []
    decreases |bytes|
  {
    hide Run, Longest, EndsWith;
    if |bytes| == 0 {
      PasteStarts(d, reported);
    } else {
      var init := bytes[..|bytes| - 1];
      assert bytes == init + [bytes[|bytes| - 1]];
      assert forall i :: 0 <= i <= |init| ==> init[..i] == bytes[..i];
      PasteGoesOn(d, init, reported);
      MatchedIsLongest(init, Run(d, init, reported).0.state.matched, bytes[|bytes| - 1]);
      RunNext(d, init, bytes[|bytes| - 1], reported);
      assert bytes[..|bytes|] == bytes;
    }
  }

  lemma PasteStarts(d: Decoder, reported: seq<Byte> -> Option<Key>)
    requires d.state == Paste(0) && Valid(d)
    ensures Run(d, [], reported) == (d, []) && Longest([], 0)
  {
    assert EndsWith([], END[..0]);
  }

  /** A paste ends exactly with the first occurrence of its end, and has yielded no key. */
  lemma PasteEnds(d: Decoder, bytes: seq<Byte>, reported: seq<Byte> -> Option<Key>)
    requires d.state == Paste(0) && Valid(d)
    requires |bytes| > 0 && Unended(bytes[..|bytes| - 1]) && EndsWith(bytes, END)
    ensures Run(d, bytes, reported) == (d.(state := Plain), [])
  {
    hide Longest, EndsWith, Unended;
    var init := bytes[..|bytes| - 1];
    assert bytes == init + [bytes[|bytes| - 1]];
    PasteGoesOn(d, init, reported);
    MatchedIsLongest(init, Run(d, init, reported).0.state.matched, bytes[|bytes| - 1]);
  }

  lemma RunNext(d: Decoder, bytes: seq<Byte>, byte: Byte, reported: seq<Byte> -> Option<Key>)
    requires Valid(d)
    ensures
      var before := Run(d, bytes, reported);
      var (next, key) := Next(before.0, byte, reported);
      && Run(d, bytes + [byte], reported).0 == next
      && Run(d, bytes + [byte], reported).1 == before.1 + if key.Some? then [key.value] else []
  {
  }

  lemma PasteBegins(reported: seq<Byte> -> Option<Key>, d: Decoder)
    requires Valid(d) && d.state.Plain?
    ensures Run(d, PASTE, reported) == (Decoder(Paste(0), [0x32, 0x30, 0x30]), [])
  {
    assert Run(d, [], reported) == (d, []);
    hide Run;
    RunNext(d, [], ESC, reported);
    RunNext(d, [] + [ESC], 0x5b, reported);
    RunNext(d, [] + [ESC] + [0x5b], 0x32, reported);
    RunNext(d, [] + [ESC] + [0x5b] + [0x32], 0x30, reported);
    RunNext(d, [] + [ESC] + [0x5b] + [0x32] + [0x30], 0x30, reported);
    RunNext(d, [] + [ESC] + [0x5b] + [0x32] + [0x30] + [0x30], TILDE, reported);
    assert PASTE == [] + [ESC] + [0x5b] + [0x32] + [0x30] + [0x30] + [TILDE];
    assert [] + [0x32] + [0x30] + [0x30] == [0x32, 0x30, 0x30];
  }

  lemma EndsWithEnd(text: seq<Byte>)
    ensures EndsWith(text + END, END)
  {
  }

  /** Pasted text is never read as keys, whatever it holds, and keys after it are. */
  lemma PasteYieldsNoKeys(d: Decoder, text: seq<Byte>, rest: seq<Byte>, reported: seq<Byte> -> Option<Key>)
    requires Valid(d) && d.state.Plain? && Unended((text + END)[..|text| + |END| - 1])
    ensures Run(d, PASTE + (text + END) + rest, reported).1 == Run(Decoder(Plain, [0x32, 0x30, 0x30]), rest, reported).1
    ensures Run(d, PASTE + (text + END) + rest, reported).0 == Run(Decoder(Plain, [0x32, 0x30, 0x30]), rest, reported).0
  {
    hide Run, Unended;
    var pasting := Decoder(Paste(0), [0x32, 0x30, 0x30]);
    PasteBegins(reported, d);
    EndsWithEnd(text);
    PasteEnds(pasting, text + END, reported);
    RunThen(d, PASTE, text + END, reported);
    RunThen(d, PASTE + (text + END), rest, reported);
  }

  // ----- control strings -----

  /** The length of a control string's rest: up to BEL, or to a backslash after ESC, where ESC always
      takes the byte after it along. */
  function StringLength(bytes: seq<Byte>): Option<nat> {
    if |bytes| == 0 then None
    else if bytes[0] == BEL then Some(1)
    else if bytes[0] == ESC then
      if |bytes| == 1 then None
      else if bytes[1] == BACKSLASH then Some(2)
      else Longer(2, StringLength(bytes[2..]))
    else Longer(1, StringLength(bytes[1..]))
  }

  function Longer(n: nat, length: Option<nat>): Option<nat> {
    if length.None? then None else Some(n + length.value)
  }

  /** A control string yields no key and ends exactly there. */
  lemma {:induction false} StringEnds(d: Decoder, bytes: seq<Byte>, reported: seq<Byte> -> Option<Key>)
    requires Valid(d) && d.state.String?
    ensures StringLength(bytes).None? ==>
              var r := Run(d, bytes, reported); r.0.state in {String, StringEscape} && r.1 == []
    ensures StringLength(bytes).Some? ==>
              && StringLength(bytes).value <= |bytes|
              && Run(d, bytes[..StringLength(bytes).value], reported) == (d.(state := Plain), [])
    decreases |bytes|
  {
    if |bytes| > 0 {
      RunOne(d, bytes[0], reported);
      if bytes[0] == BEL {
        assert bytes[..1] == [bytes[0]];
      } else if bytes[0] == ESC {
        if |bytes| == 1 {
          assert bytes == [bytes[0]];
        } else {
          var escaped := d.(state := StringEscape);
          RunOne(escaped, bytes[1], reported);
          RunThen(d, [bytes[0]], [bytes[1]], reported);
          assert bytes[..2] == [bytes[0]] + [bytes[1]];
          if bytes[1] != BACKSLASH { StringGoesOn(d, bytes, 2, reported); }
        }
      } else {
        assert bytes[..1] == [bytes[0]];
        StringGoesOn(d, bytes, 1, reported);
      }
    }
  }

  lemma {:induction false} StringGoesOn(d: Decoder, bytes: seq<Byte>, n: nat, reported: seq<Byte> -> Option<Key>)
    requires Valid(d) && d.state.String? && 0 < n <= |bytes|
    requires Run(d, bytes[..n], reported) == (d, []) && StringLength(bytes) == Longer(n, StringLength(bytes[n..]))
    ensures StringLength(bytes).None? ==>
              var r := Run(d, bytes, reported); r.0.state in {String, StringEscape} && r.1 == []
    ensures StringLength(bytes).Some? ==>
              && StringLength(bytes).value <= |bytes|
              && Run(d, bytes[..StringLength(bytes).value], reported) == (d.(state := Plain), [])
    decreases |bytes|, 0
  {
    hide Run, StringLength;
    var rest := bytes[n..];
    StringEnds(d, rest, reported);
    assert bytes == bytes[..n] + rest;
    RunThen(d, bytes[..n], rest, reported);
    if StringLength(rest).Some? {
      var length := StringLength(rest).value;
      assert bytes[..n + length] == bytes[..n] + rest[..length];
      RunThen(d, bytes[..n], rest[..length], reported);
    }
  }

  lemma RunOne(d: Decoder, byte: Byte, reported: seq<Byte> -> Option<Key>)
    requires Valid(d)
    ensures
      var (next, key) := Next(d, byte, reported);
      Run(d, [byte], reported).0 == next && Run(d, [byte], reported).1 == if key.Some? then [key.value] else []
  {
  }

  /** A second ESC hides the terminator: after `ESC ESC \` the string is still open. */
  lemma DoubledEscapeHidesTerminator(d: Decoder, reported: seq<Byte> -> Option<Key>)
    requires Valid(d) && d.state.String?
    ensures Run(d, [ESC, ESC, BACKSLASH], reported) == (d, [])
  {
    RunOne(d, ESC, reported);
    RunOne(d.(state := StringEscape), ESC, reported);
    RunOne(d, BACKSLASH, reported);
    RunThen(d, [ESC], [ESC], reported);
    RunThen(d, [ESC] + [ESC], [BACKSLASH], reported);
    assert [ESC, ESC, BACKSLASH] == [ESC] + [ESC] + [BACKSLASH];
  }

  // ----- whole inputs -----

  /** What a terminal sends: a key as one byte or with ESC before it for Alt, or a sequence. */
  datatype Input =
    | Letter(letter: Byte, alt: bool)                    // one of c, h, o, q, r
    | Control(letter: Byte, alt: bool)                   // Ctrl with a letter other than i and m
    | Other(byte: Byte, alt: bool)                       // any other byte
    | Report(parameters: seq<Byte>, final: Byte)         // `ESC [`, parameters and a final byte
    | MouseReport(parts: seq<Byte>)                      // `ESC [ M` and three bytes
    | Shifted(byte: Byte)                                // `ESC O` and one byte
    | ControlString(introducer: Byte, rest: seq<Byte>)   // ESC, an introducer and the string with its terminator
    | Pasted(text: seq<Byte>)                            // a bracketed paste

  ghost predicate Whole(input: Input) {
    match input
    case Letter(letter, _) => letter in {0x63, 0x68, 0x6f, 0x71, 0x72}
    case Control(letter, _) => 0x61 <= letter <= 0x7a && letter != 0x69 && letter != 0x6d
    case Other(byte, alt) =>
      && byte !in {0x63, 0x68, 0x6f, 0x71, 0x72} && (byte == 0 || byte == 9 || byte == 13 || byte > 26)
      && if alt then byte !in {0x4f, 0x50, 0x58, 0x5b, 0x5d, 0x5e, 0x5f} else byte != 0x1b
    case Report(parameters, final) =>
      && (forall i :: 0 <= i < |parameters| ==> !(0x40 <= parameters[i] <= 0x7e)) && 0x40 <= final <= 0x7e
      && !(parameters == [] && final == 0x4d) && !(parameters == [0x32, 0x30, 0x30] && final == 0x7e)
    case MouseReport(parts) => |parts| == 3
    case Shifted(_) => true
    case ControlString(introducer, rest) =>
      introducer in {0x50, 0x58, 0x5d, 0x5e, 0x5f} && StringLength(rest) == Some(|rest|)
    case Pasted(text) => Unended((text + END)[..|text| + |END| - 1])
  }

  function Alted(byte: Byte, alt: bool): seq<Byte> {
    if alt then [0x1b, byte] else [byte]
  }

  function Bytes(input: Input): seq<Byte> {
    match input
    case Letter(letter, alt) => Alted(letter, alt)
    case Control(letter, alt) => Alted(if letter < 0x60 then 0 else letter - 0x60, alt)
    case Other(byte, alt) => Alted(byte, alt)
    case Report(parameters, final) => [0x1b, 0x5b] + parameters + [final]
    case MouseReport(parts) => [0x1b, 0x5b] + [0x4d] + parts
    case Shifted(byte) => [0x1b, 0x4f] + [byte]
    case ControlString(introducer, rest) => [0x1b, introducer] + rest
    case Pasted(text) => [0x1b, 0x5b, 0x32, 0x30, 0x30, 0x7e] + (text + [0x1b, 0x5b, 0x32, 0x30, 0x31, 0x7e])
  }

  /** The key that an input means: its letter with its modifiers, or what a report ending in `u` reports by its
      first 128 parameter bytes. */
  function KeyOf(input: Input, reported: seq<Byte> -> Option<Key>): Option<Key> {
    match input
    case Letter(letter, alt) => Some(Shortcut(letter, false, alt))
    case Control(letter, alt) => Some(Shortcut(letter, true, alt))
    case Report(parameters, final) => if final == 0x75 then reported(parameters[..Min(|parameters|, 128)]) else None
    case _ => None
  }

  function KeysOf(input: Input, reported: seq<Byte> -> Option<Key>): seq<Key> {
    if KeyOf(input, reported).Some? then [KeyOf(input, reported).value] else []
  }

  /** The decoder is back among plain bytes after these bytes, with these keys. */
  ghost predicate Reads(d: Decoder, bytes: seq<Byte>, keys: seq<Key>, reported: seq<Byte> -> Option<Key>)
    requires Valid(d)
  {
    Run(d, bytes, reported).0.state.Plain? && Run(d, bytes, reported).1 == keys
  }

  lemma RunTwo(d: Decoder, a: Byte, b: Byte, reported: seq<Byte> -> Option<Key>)
    requires Valid(d) && Next(d, a, reported).1.None?
    ensures
      var (next, key) := Next(Next(d, a, reported).0, b, reported);
      && Run(d, [a, b], reported).0 == next
      && Run(d, [a, b], reported).1 == if key.Some? then [key.value] else []
  {
    hide Run, Next;
    assert [a, b] == [a] + [b];
    RunOne(d, a, reported);
    RunOne(Next(d, a, reported).0, b, reported);
    RunThen(d, [a], [b], reported);
  }

  lemma AltedRuns(d: Decoder, byte: Byte, alt: bool, reported: seq<Byte> -> Option<Key>)
    requires Valid(d) && d.state.Plain?
    requires if alt then byte !in {0x4f, 0x50, 0x58, 0x5b, 0x5d, 0x5e, 0x5f} else byte != 0x1b
    ensures Reads(d, Alted(byte, alt), if Ascii(byte, alt).Some? then [Ascii(byte, alt).value] else [], reported)
  {
    hide Run, Ascii;
    if alt {
      RunTwo(d, ESC, byte, reported);
    } else {
      RunOne(d, byte, reported);
    }
  }

  lemma {:induction false} ParametersRun(d: Decoder, parameters: seq<Byte>, reported: seq<Byte> -> Option<Key>)
    requires Valid(d) && d.state.Sequence? && d.sequence == []
    requires forall i :: 0 <= i < |parameters| ==> !IsFinal(parameters[i])
    ensures Run(d, parameters, reported).0 == d.(sequence := parameters[..Min(|parameters|, SEQUENCE_LIMIT)])
    ensures Run(d, parameters, reported).1 == []
    decreases |parameters|
  {
    if |parameters| > 0 {
      var (init, last) := (parameters[..|parameters| - 1], parameters[|parameters| - 1]);
      ParametersRun(d, init, reported);
      if |parameters| <= SEQUENCE_LIMIT { assert parameters == init + [last]; }
    }
  }

  lemma ReportRuns(d: Decoder, parameters: seq<Byte>, final: Byte, reported: seq<Byte> -> Option<Key>)
    requires Valid(d) && d.state.Plain? && Whole(Report(parameters, final))
    ensures Reads(d, Bytes(Report(parameters, final)), KeysOf(Report(parameters, final), reported), reported)
  {
    hide Run;
    var (inside, before) := (Decoder(Sequence, []), [0x1b, 0x5b]);
    RunTwo(d, 0x1b, 0x5b, reported);
    ParametersRun(inside, parameters, reported);
    RunThen(d, before, parameters, reported);
    RunNext(d, before + parameters, final, reported);
  }

  lemma ThreeBytes(d: Decoder, parts: seq<Byte>, reported: seq<Byte> -> Option<Key>)
    requires Valid(d) && d.state == Mouse(3) && |parts| == 3
    ensures Reads(d, parts, [], reported)
  {
    hide Run;
    RunTwo(d, parts[0], parts[1], reported);
    RunNext(d, [parts[0], parts[1]], parts[2], reported);
    assert parts == [parts[0], parts[1]] + [parts[2]];
  }

  /** One whole input is read as its key, or as none. */
  lemma InputRuns(d: Decoder, input: Input, reported: seq<Byte> -> Option<Key>)
    requires Valid(d) && d.state.Plain? && Whole(input)
    ensures Reads(d, Bytes(input), KeysOf(input, reported), reported)
  {
    hide Run, Unended, StringLength;
    match input
    case Letter(letter, alt) => AltedRuns(d, letter, alt, reported);
    case Control(letter, alt) => AltedRuns(d, letter - 0x60, alt, reported);
    case Other(byte, alt) => AltedRuns(d, byte, alt, reported);
    case Report(parameters, final) => ReportRuns(d, parameters, final, reported);
    case MouseReport(parts) =>
      RunTwo(d, 0x1b, 0x5b, reported);
      RunNext(d, [0x1b, 0x5b], 0x4d, reported);
      ThreeBytes(Decoder(Mouse(3), []), parts, reported);
      RunThen(d, [0x1b, 0x5b] + [0x4d], parts, reported);
    case Shifted(byte) =>
      RunTwo(d, 0x1b, 0x4f, reported);
      RunNext(d, [0x1b, 0x4f], byte, reported);
    case ControlString(introducer, rest) =>
      RunTwo(d, 0x1b, introducer, reported);
      StringEnds(Decoder(String, []), rest, reported);
      assert rest[..|rest|] == rest;
      RunThen(d, [0x1b, introducer], rest, reported);
    case Pasted(text) =>
      PasteBegins(reported, d);
      EndsWithEnd(text);
      PasteEnds(Decoder(Paste(0), [0x32, 0x30, 0x30]), text + END, reported);
      RunThen(d, PASTE, text + END, reported);
  }

  function AllBytes(inputs: seq<Input>): seq<Byte> {
    if |inputs| == 0 then [] else AllBytes(inputs[..|inputs| - 1]) + Bytes(inputs[|inputs| - 1])
  }

  function AllKeys(inputs: seq<Input>, reported: seq<Byte> -> Option<Key>): seq<Key> {
    if |inputs| == 0 then []
    else AllKeys(inputs[..|inputs| - 1], reported) + KeysOf(inputs[|inputs| - 1], reported)
  }

  /** Any inputs one after another are read as exactly their keys, in order. */
  lemma {:induction false} InputsRun(inputs: seq<Input>, reported: seq<Byte> -> Option<Key>)
    requires forall i :: 0 <= i < |inputs| ==> Whole(inputs[i])
    ensures Reads(START, AllBytes(inputs), AllKeys(inputs, reported), reported)
    decreases |inputs|
  {
    hide Run, Whole, Bytes, KeysOf;
    if |inputs| == 0 {
      NoInput(reported);
    } else {
      var (init, last) := (inputs[..|inputs| - 1], inputs[|inputs| - 1]);
      InputsRun(init, reported);
      InputRuns(Run(START, AllBytes(init), reported).0, last, reported);
      RunThen(START, AllBytes(init), Bytes(last), reported);
    }
  }

  lemma NoInput(reported: seq<Byte> -> Option<Key>)
    ensures Reads(START, [], [], reported)
  {
  }
}
