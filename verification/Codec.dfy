/** The stable binary form of a command stream (scheduler/src/command.rs, encode_command_stream). */
module Codec {
  import opened Common
  import opened Arena
  import opened Commands
  import PageMath

  type Byte = x: nat | x < 256

  /** 256 to the power of width. */
  function Span(width: nat): (s: nat)
    ensures s > 0
  {
    if width == 0 then 1 else 256 * Span(width - 1)
  }

  /** Little-endian bytes, least significant first. */
  function ToLe(n: nat, width: nat): (r: seq<Byte>)
    ensures |r| == width
  {
    if width == 0 then [] else [n % 256] + ToLe(n / 256, width - 1)
  }

  function FromLe(bytes: seq<Byte>): (n: nat)
    ensures n < Span(|bytes|)
  {
    if bytes == [] then 0 else bytes[0] + 256 * FromLe(bytes[1..])
  }

  lemma {:induction false} FromToLe(n: nat, width: nat)
    requires n < Span(width)
    ensures FromLe(ToLe(n, width)) == n
  {
    if width > 0 {
      FromToLe(n / 256, width - 1);
      assert ToLe(n, width)[1..] == ToLe(n / 256, width - 1);
    }
  }

  lemma {:induction false} ToFromLe(bytes: seq<Byte>)
    ensures ToLe(FromLe(bytes), |bytes|) == bytes
  {
    if bytes != [] {
      ToFromLe(bytes[1..]);
      var n := FromLe(bytes);
      assert n % 256 == bytes[0] && n / 256 == FromLe(bytes[1..]);
    }
  }

  lemma WordSpans()
    ensures Span(8) == U64_MAX + 1 && Span(4) == U32_MAX + 1
  {
    assert Span(2) == 65536;
    assert Span(4) == 65536 * 65536;
    assert Span(6) == 65536 * Span(4);
    assert Span(8) == 65536 * Span(6);
  }

  function ReasonByte(reason: KillReason): Byte {
    match reason
    case BeamPruned => 0
    case SpeculativeKill => 1
    case BranchBudgetExhausted => 2
    case TreeBudgetExhausted => 3
    case Exhausted => 4
    case Drained => 5
    case AncestorReclaimed => 6
  }

  function ReasonOf(b: Byte): Option<KillReason> {
    match b
    case 0 => Some(BeamPruned)
    case 1 => Some(SpeculativeKill)
    case 2 => Some(BranchBudgetExhausted)
    case 3 => Some(TreeBudgetExhausted)
    case 4 => Some(Exhausted)
    case 5 => Some(Drained)
    case 6 => Some(AncestorReclaimed)
    case _ => None
  }

  /** The ranges of the field types: 64-bit branch ids, 32-bit widths. */
  predicate InRange(c: Command) {
    c.branch <= U64_MAX && (c.ForkAt? ==> c.width <= U32_MAX)
  }

  function EncodeOne(c: Command): seq<Byte> {
    match c
    case ForkAt(branch, width) => [0] + ToLe(branch, 8) + ToLe(width, 4)
    case KillBranch(branch, reason) => [1] + ToLe(branch, 8) + [ReasonByte(reason)]
    case Continue(branch) => [2] + ToLe(branch, 8)
    case FinalizeBranch(branch) => [3] + ToLe(branch, 8)
  }

  function EncodeAll(commands: seq<Command>): seq<Byte> {
    if commands == [] then [] else EncodeOne(commands[0]) + EncodeAll(commands[1..])
  }

  function Encode(commands: seq<Command>): seq<Byte> {
    ToLe(Min(|commands|, U64_MAX), 8) + EncodeAll(commands)
  }

  method EncodeCommandStream(commands: seq<Command>) returns (encoded: seq<Byte>)
    ensures encoded == Encode(commands)
  {
    hide EncodeOne, ToLe;
    encoded := ToLe(Min(|commands|, U64_MAX), 8);
    for i := 0 to |commands|
      invariant Encode(commands) == encoded + EncodeAll(commands[i..])
    {
      assert commands[i..][0] == commands[i] && commands[i..][1..] == commands[i + 1..];
      encoded := encoded + EncodeOne(commands[i]);
    }
    assert encoded + [] == encoded;
  }

  // ---------------------------------------------------------------------------
  // A decoder
  // ---------------------------------------------------------------------------

  /** How long a command with this tag is. */
  function LengthFor(tag: Byte): Option<nat> {
    match tag
    case 0 => Some(13)
    case 1 => Some(10)
    case 2 => Some(9)
    case 3 => Some(9)
    case _ => None
  }

  /** The first command of the bytes, with the number of bytes it takes. */
  function DecodeOne(bytes: seq<Byte>): (r: Option<(Command, nat)>)
    ensures r.Some? ==> 0 < r.value.1 <= |bytes|
  {
    if bytes == [] || LengthFor(bytes[0]).None? || |bytes| < LengthFor(bytes[0]).value then None
    else
      var length := LengthFor(bytes[0]).value;
      var branch := FromLe(bytes[1..9]);
      match bytes[0]
      case 0 => Some((ForkAt(branch, FromLe(bytes[9..13])), length))
      case 1 =>
        if ReasonOf(bytes[9]).None? then None
        else Some((KillBranch(branch, ReasonOf(bytes[9]).value), length))
      case 2 => Some((Continue(branch), length))
      case _ => Some((FinalizeBranch(branch), length))
  }

  /** Exactly `count` commands and nothing after them. */
  function DecodeAll(bytes: seq<Byte>, count: nat): Option<seq<Command>> {
    if count == 0 then (if bytes == [] then Some([]) else None)
    else
      match DecodeOne(bytes)
      case None => None
      case Some((command, length)) =>
        match DecodeAll(bytes[length..], count - 1)
        case None => None
        case Some(rest) => Some([command] + rest)
  }

  function Decode(bytes: seq<Byte>): Option<seq<Command>> {
    if |bytes| < 8 then None else DecodeAll(bytes[8..], FromLe(bytes[..8]))
  }

  lemma DecodeEncodedOne(c: Command, rest: seq<Byte>)
    requires InRange(c)
    ensures DecodeOne(EncodeOne(c) + rest) == Some((c, |EncodeOne(c)|))
  {
    hide EncodeOne, DecodeOne;
    match c
    case ForkAt(_, _) => DecodeEncodedFork(c, rest);
    case KillBranch(_, _) => DecodeEncodedKill(c, rest);
    case _ => DecodeEncodedBranch(c, rest);
  }

  lemma DecodeEncodedFork(c: Command, rest: seq<Byte>)
    requires InRange(c) && c.ForkAt?
    ensures DecodeOne(EncodeOne(c) + rest) == Some((c, |EncodeOne(c)|))
  {
    hide ToLe, FromLe;
    WordSpans();
    FromToLe(c.branch, 8);
    FromToLe(c.width, 4);
    var bytes := EncodeOne(c) + rest;
    assert bytes[1..9] == ToLe(c.branch, 8);
    assert bytes[9..13] == ToLe(c.width, 4);
  }

  lemma DecodeEncodedKill(c: Command, rest: seq<Byte>)
    requires InRange(c) && c.KillBranch?
    ensures DecodeOne(EncodeOne(c) + rest) == Some((c, |EncodeOne(c)|))
  {
    hide ToLe, FromLe, ReasonOf, ReasonByte;
    WordSpans();
    FromToLe(c.branch, 8);
    ReasonRoundTrip(c.reason);
    var bytes := EncodeOne(c) + rest;
    assert bytes[1..9] == ToLe(c.branch, 8);
    assert bytes[9] == ReasonByte(c.reason);
  }

  lemma DecodeEncodedBranch(c: Command, rest: seq<Byte>)
    requires InRange(c) && (c.Continue? || c.FinalizeBranch?)
    ensures DecodeOne(EncodeOne(c) + rest) == Some((c, |EncodeOne(c)|))
  {
    hide ToLe, FromLe;
    WordSpans();
    FromToLe(c.branch, 8);
    assert (EncodeOne(c) + rest)[1..9] == ToLe(c.branch, 8);
  }

  lemma ReasonRoundTrip(r: KillReason)
    ensures ReasonOf(ReasonByte(r)) == Some(r)
  {
  }

  lemma {:induction false} DecodeEncodedAll(commands: seq<Command>)
    requires forall k :: 0 <= k < |commands| ==> InRange(commands[k])
    ensures DecodeAll(EncodeAll(commands), |commands|) == Some(commands)
  {
    if commands != [] {
      hide DecodeOne, EncodeOne;
      var first, rest := EncodeOne(commands[0]), EncodeAll(commands[1..]);
      DecodeEncodedOne(commands[0], rest);
      assert (first + rest)[|first|..] == rest;
      DecodeEncodedAll(commands[1..]);
      assert [commands[0]] + commands[1..] == commands;
    }
  }

  // ---------------------------------------------------------------------------
  // The bytes on the wire
  // ---------------------------------------------------------------------------

  lemma {:induction false} LeBytes(n: nat, width: nat, i: nat)
    requires i < width
    ensures ToLe(n, width)[i] == n / Span(i) % 256
  {
    if i > 0 {
      LeBytes(n / 256, width - 1, i - 1);
      DivideTwice(n, 256, Span(i - 1));
    }
  }

  lemma DivideTwice(n: nat, a: nat, b: nat)
    requires a > 0 && b > 0
    ensures n / a / b == n / (a * b)
  {
    var q := n / a / b;
    var low := n / a % b * a + n % a;
    assert n / a == q * b + n / a % b;
    assert n == (q * b + n / a % b) * a + n % a == q * (a * b) + low;
    assert n / a % b <= b - 1;
    LowPart(n / a % b, n % a, a, b);
    QuotientIs(n, a * b, q, low);
  }

  lemma LowPart(x: nat, y: nat, a: nat, b: nat)
    requires x < b && y < a
    ensures x * a + y < a * b
  {
    assert x * a <= (b - 1) * a == a * b - a;
  }

  lemma QuotientIs(n: nat, d: nat, q: nat, r: nat)
    requires r < d && n == q * d + r
    ensures n / d == q
  {
    PageMath.DivUnique(q, r, d);
  }

  /** The width least significant bytes of a number, the lowest first, at a place. */
  ghost predicate HoldsAt(bytes: seq<Byte>, at: nat, n: nat, width: nat) {
    at + width <= |bytes| && forall i: nat :: i < width ==> bytes[at + i] == n / Span(i) % 256
  }

  lemma LeHolds(before: seq<Byte>, n: nat, width: nat, after: seq<Byte>)
    ensures HoldsAt(before + ToLe(n, width) + after, |before|, n, width)
  {
    hide ToLe, Span;
    var bytes := before + ToLe(n, width) + after;
    forall i: nat | i < width
      ensures bytes[|before| + i] == n / Span(i) % 256
    {
      LeBytes(n, width, i);
      assert bytes[|before| + i] == ToLe(n, width)[i];
    }
  }

  /** The byte of each reason. */
  ghost predicate IsCode(reason: KillReason, code: Byte) {
    || (reason == BeamPruned && code == 0)
    || (reason == SpeculativeKill && code == 1)
    || (reason == BranchBudgetExhausted && code == 2)
    || (reason == TreeBudgetExhausted && code == 3)
    || (reason == Exhausted && code == 4)
    || (reason == Drained && code == 5)
    || (reason == AncestorReclaimed && code == 6)
  }

  /** A command is its tag, the 64-bit branch and, for a fork, the 32-bit width or, for a kill, the code of its reason. */
  lemma WireForm(c: Command)
    ensures var bytes := EncodeOne(c);
            && |bytes| == (match c case ForkAt(_, _) => 13 case KillBranch(_, _) => 10 case _ => 9)
            && bytes[0] == (match c case ForkAt(_, _) => 0 case KillBranch(_, _) => 1 case Continue(_) => 2 case FinalizeBranch(_) => 3)
            && HoldsAt(bytes, 1, c.branch, 8)
            && (c.ForkAt? ==> HoldsAt(bytes, 9, c.width, 4))
            && (c.KillBranch? ==> IsCode(c.reason, bytes[9]))
  {
    hide HoldsAt, ToLe;
    var bytes := EncodeOne(c);
    match c
    case ForkAt(branch, width) =>
      LeHolds([0], branch, 8, ToLe(width, 4));
      LeHolds([0] + ToLe(branch, 8), width, 4, []);
      assert bytes == [0] + ToLe(branch, 8) + ToLe(width, 4) + [];
    case KillBranch(branch, reason) =>
      LeHolds([1], branch, 8, [ReasonByte(reason)]);
    case Continue(branch) =>
      LeHolds([2], branch, 8, []);
      assert bytes == [2] + ToLe(branch, 8) + [];
    case FinalizeBranch(branch) =>
      LeHolds([3], branch, 8, []);
      assert bytes == [3] + ToLe(branch, 8) + [];
  }

  lemma {:induction false} EncodeAllConcat(a: seq<Command>, b: seq<Command>)
    ensures EncodeAll(a + b) == EncodeAll(a) + EncodeAll(b)
  {
    if a == [] {
      assert a + b == b;
    } else {
      assert (a + b)[1..] == a[1..] + b;
      EncodeAllConcat(a[1..], b);
    }
  }

  /** The stream is the 64-bit count and then the commands in order, each in its wire form. */
  lemma StreamForm(commands: seq<Command>, k: nat)
    requires k < |commands| <= U64_MAX
    ensures HoldsAt(Encode(commands), 0, |commands|, 8)
    ensures Encode(commands)[8..] == EncodeAll(commands[..k]) + EncodeOne(commands[k]) + EncodeAll(commands[k + 1..])
  {
    hide EncodeOne;
    LeHolds([], |commands|, 8, EncodeAll(commands));
    assert [] + ToLe(|commands|, 8) + EncodeAll(commands) == Encode(commands);
    assert commands == commands[..k] + commands[k..];
    EncodeAllConcat(commands[..k], commands[k..]);
    assert commands[k..][1..] == commands[k + 1..];
    assert Encode(commands)[8..] == EncodeAll(commands);
  }

  /** Reading the count, the tags and the fields recovers the list and consumes every byte. */
  lemma RoundTrip(commands: seq<Command>)
    requires |commands| <= U64_MAX && forall k :: 0 <= k < |commands| ==> InRange(commands[k])
    ensures Decode(Encode(commands)) == Some(commands)
  {
    WordSpans();
    FromToLe(|commands|, 8);
    DecodeEncodedAll(commands);
    assert Encode(commands)[..8] == ToLe(|commands|, 8);
    assert Encode(commands)[8..] == EncodeAll(commands);
  }

  /** Two lists with the same bytes are the same list. */
  lemma Injective(a: seq<Command>, b: seq<Command>)
    requires |a| <= U64_MAX && forall k :: 0 <= k < |a| ==> InRange(a[k])
    requires |b| <= U64_MAX && forall k :: 0 <= k < |b| ==> InRange(b[k])
    requires Encode(a) == Encode(b)
    ensures a == b
  {
    RoundTrip(a);
    RoundTrip(b);
  }

  lemma EncodeDecodedOne(bytes: seq<Byte>)
    requires DecodeOne(bytes).Some?
    ensures EncodeOne(DecodeOne(bytes).value.0) == bytes[..DecodeOne(bytes).value.1]
    ensures InRange(DecodeOne(bytes).value.0)
  {
    WordSpans();
    ToFromLe(bytes[1..9]);
    if bytes[0] == 0 { ToFromLe(bytes[9..13]); }
  }

  lemma {:induction false} EncodeDecodedAll(bytes: seq<Byte>, count: nat)
    requires DecodeAll(bytes, count).Some?
    ensures |DecodeAll(bytes, count).value| == count
    ensures EncodeAll(DecodeAll(bytes, count).value) == bytes
    ensures forall k :: 0 <= k < count ==> InRange(DecodeAll(bytes, count).value[k])
  {
    hide DecodeOne, EncodeOne, InRange;
    if count > 0 {
      EncodeDecodedOne(bytes);
      var (command, length) := DecodeOne(bytes).value;
      EncodeDecodedAll(bytes[length..], count - 1);
      var rest := DecodeAll(bytes[length..], count - 1).value;
      assert DecodeAll(bytes, count).value == [command] + rest;
      assert ([command] + rest)[1..] == rest;
      assert bytes == bytes[..length] + bytes[length..];
    }
  }

  /** What decodes is the encoding of what it decodes to: no list has a second form. */
  lemma Canonical(bytes: seq<Byte>)
    requires Decode(bytes).Some?
    ensures Encode(Decode(bytes).value) == bytes
    ensures |Decode(bytes).value| <= U64_MAX
    ensures forall k :: 0 <= k < |Decode(bytes).value| ==> InRange(Decode(bytes).value[k])
  {
    WordSpans();
    EncodeDecodedAll(bytes[8..], FromLe(bytes[..8]));
    ToFromLe(bytes[..8]);
    assert bytes == bytes[..8] + bytes[8..];
  }
}
