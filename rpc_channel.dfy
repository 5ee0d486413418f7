/**
 * The message-integrity logic of vw/Plate/RpcChannel.cc: the Fletcher-style
 * checksum over a message's method name and payload, the stamping of that
 * checksum on send, the return codes of receive, and the choice of a
 * transport by URL scheme.
 *
 * Strings are sequences of octets. The checksum loop adds each octet as a
 * C++ `char`, which is signed on the platforms the code targets, so octets
 * 0x80..0xff contribute their value minus 256.
 */
module RpcChannel {
  import opened Wrappers

  type Byte = b: int | 0 <= b < 0x100
  type Uint16 = x: int | 0 <= x < 0x1_0000
  type Uint32 = x: int | 0 <= x < 0x1_0000_0000

  const Modulus: int := 0x1_0000

  /** The value a `char` holding octet b adds to a sum. */
  function CharValue(b: Byte): int {
    if b < 0x80 then b else b - 0x100
  }

  // ---------------------------------------------------------------------
  // fletcher_add
  // ---------------------------------------------------------------------

  /** The two 16-bit running sums c0 and c1. */
  datatype Sums = Sums(c0: Uint16, c1: Uint16)

  /** One step of the loop: c0 += byte, then c1 += c0, both in 16-bit arithmetic. */
  function AddByte(s: Sums, b: Byte): Sums {
    var c0 := (s.c0 + CharValue(b)) % Modulus;
    Sums(c0, (s.c1 + c0) % Modulus)
  }

  /** The running sums after the bytes of data, in order. */
  function RunningSums(s: Sums, data: seq<Byte>): Sums
    decreases |data|
  {
    if data == [] then s else AddByte(RunningSums(s, data[..|data| - 1]), data[|data| - 1])
  }

  /** c0 = sum >> 16, c1 = sum & 0xffff. */
  function Split(sum: Uint32): Sums {
    Sums(sum / Modulus, sum % Modulus)
  }

  /** sum = c0 << 16, then sum += c1. */
  function Join(s: Sums): Uint32 {
    s.c0 * Modulus + s.c1
  }

  /** Splitting and joining are inverse to each other. */
  lemma SplitJoin(sum: Uint32, s: Sums)
    ensures Join(Split(sum)) == sum
    ensures Split(Join(s)) == s
  {
    assert (s.c0 * Modulus + s.c1) / Modulus == s.c0;
    assert (s.c0 * Modulus + s.c1) % Modulus == s.c1;
  }

  /** What fletcher_add leaves in sum. */
  function FletcherSum(sum: Uint32, data: seq<Byte>): Uint32 {
    Join(RunningSums(Split(sum), data))
  }

  /** fletcher_add(sum, data, len). */
  method FletcherAdd(sum: Uint32, data: seq<Byte>) returns (result: Uint32)
    ensures result == FletcherSum(sum, data)
  {
    var c0: Uint16 := sum / Modulus;
    var c1: Uint16 := sum % Modulus;
    for i := 0 to |data|
      invariant Sums(c0, c1) == RunningSums(Split(sum), data[..i])
    {
      c0 := (c0 + CharValue(data[i])) % Modulus;
      c1 := (c1 + c0) % Modulus;
      assert data[..i + 1][..i] == data[..i];
    }
    assert data[..|data|] == data;
    result := c0 * Modulus + c1;
  }

  /** Adding no bytes leaves the sum as it was. */
  lemma FletcherEmpty(sum: Uint32)
    ensures FletcherSum(sum, []) == sum
  {
    SplitJoin(sum, Sums(0, 0));
  }

  lemma {:induction false} RunningSumsConcat(s: Sums, a: seq<Byte>, b: seq<Byte>)
    ensures RunningSums(RunningSums(s, a), b) == RunningSums(s, a + b)
    decreases |b|
  {
    if b == [] {
      assert a + b == a;
    } else {
      RunningSumsConcat(s, a, b[..|b| - 1]);
      assert (a + b)[..|a + b| - 1] == a + b[..|b| - 1];
    }
  }

  /** Feeding a and then b is feeding a ++ b. */
  lemma FletcherConcat(sum: Uint32, a: seq<Byte>, b: seq<Byte>)
    ensures FletcherSum(FletcherSum(sum, a), b) == FletcherSum(sum, a + b)
  {
    SplitJoin(sum, RunningSums(Split(sum), a));
    RunningSumsConcat(Split(sum), a, b);
  }

  // ---------------------------------------------------------------------
  // A closed form of the running sums
  // ---------------------------------------------------------------------

  /** The sum of the bytes' char values. */
  function ValueSum(data: seq<Byte>): int
    decreases |data|
  {
    if data == [] then 0 else ValueSum(data[..|data| - 1]) + CharValue(data[|data| - 1])
  }

  /** The sum of the prefix sums: byte k of n bytes counts n - k times. */
  function WeightedSum(data: seq<Byte>): int
    decreases |data|
  {
    if data == [] then 0 else WeightedSum(data[..|data| - 1]) + ValueSum(data)
  }

  lemma ModAdd(x: int, y: int)
    ensures (x % Modulus + y) % Modulus == (x + y) % Modulus
  {
    var q := x / Modulus;
    assert x == q * Modulus + x % Modulus;
    assert x % Modulus + y == (x + y) - q * Modulus;
  }

  lemma MulSucc(n: int, c: int)
    ensures (n + 1) * c == n * c + c
  {
  }

  /** One loop step on the closed form, with the product n * c0 passed in as nc0. */
  lemma ClosedFormStep(c0: int, c1: int, nc0: int, v: int, w: int, x: int)
    ensures ((c0 + v) % Modulus + x) % Modulus == (c0 + v + x) % Modulus
    ensures ((c1 + nc0 + w) % Modulus + (c0 + v + x) % Modulus) % Modulus
         == (c1 + nc0 + c0 + w + v + x) % Modulus
  {
    ModAdd(c0 + v, x);
    ModAdd(c1 + nc0 + w, (c0 + v + x) % Modulus);
    ModAdd(c0 + v + x, c1 + nc0 + w);
  }

  /**
   * Reference definition: after n bytes, c0 is the start c0 plus all char
   * values and c1 is the start c1 plus n times the start c0 plus the
   * weighted sum, both modulo 2^16.
   */
  lemma {:induction false} RunningSumsClosedForm(s: Sums, data: seq<Byte>)
    ensures RunningSums(s, data) ==
      Sums((s.c0 + ValueSum(data)) % Modulus, (s.c1 + |data| * s.c0 + WeightedSum(data)) % Modulus)
    decreases |data|
  {
    if data != [] {
      var p := data[..|data| - 1];
      var x := CharValue(data[|data| - 1]);
      var n := |p|;
      RunningSumsClosedForm(s, p);
      var prev := RunningSums(s, p);
      assert RunningSums(s, data) == AddByte(prev, data[|data| - 1]);
      assert ValueSum(data) == ValueSum(p) + x;
      assert WeightedSum(data) == WeightedSum(p) + ValueSum(p) + x;
      var nc0 := n * s.c0;
      assert |data| == n + 1;
      MulSucc(n, s.c0);
      ClosedFormStep(s.c0, s.c1, nc0, ValueSum(p), WeightedSum(p), x);
    }
  }

  lemma {:induction false} ValueSumUpdate(data: seq<Byte>, i: int, b: Byte)
    requires 0 <= i < |data|
    ensures ValueSum(data[i := b]) == ValueSum(data) - CharValue(data[i]) + CharValue(b)
    decreases |data|
  {
    var d := data[i := b];
    if i < |data| - 1 {
      assert d[..|d| - 1] == data[..|data| - 1][i := b];
      ValueSumUpdate(data[..|data| - 1], i, b);
    } else {
      assert d[..|d| - 1] == data[..|data| - 1];
    }
  }

  lemma ModSeparates(x: int, delta: int)
    requires delta != 0 && -Modulus < delta < Modulus
    ensures (x + delta) % Modulus != x % Modulus
  {
  }

  /**
   * Changing any one byte of the data always changes the Fletcher sum: the
   * char value moves by less than 2^16, so c0 changes.
   */
  lemma FletcherDetectsByteChange(sum: Uint32, data: seq<Byte>, i: int, b: Byte)
    requires 0 <= i < |data| && b != data[i]
    ensures FletcherSum(sum, data[i := b]) != FletcherSum(sum, data)
  {
    var s := Split(sum);
    var r1 := RunningSums(s, data[i := b]);
    var r2 := RunningSums(s, data);
    RunningSumsClosedForm(s, data);
    RunningSumsClosedForm(s, data[i := b]);
    ValueSumUpdate(data, i, b);
    ModSeparates(s.c0 + ValueSum(data), CharValue(b) - CharValue(data[i]));
    assert r1.c0 != r2.c0;
    SplitJoin(0, r1);
    SplitJoin(0, r2);
  }

  // ---------------------------------------------------------------------
  // Messages
  // ---------------------------------------------------------------------

  /** The fields of RpcWrapper that the checksum logic reads or writes. */
  datatype RpcWrapper = RpcWrapper(methodName: seq<Byte>, payload: seq<Byte>, checksum: Uint32)

  /** The Fletcher sum of the method name followed by the payload, from 0. */
  function ChecksumOf(m: RpcWrapper): Uint32 {
    FletcherSum(0, m.methodName + m.payload)
  }

  /** IChannel::checksum: fletcher_add over the method name, then over the payload. */
  method Checksum(message: RpcWrapper) returns (sum: Uint32)
    ensures sum == ChecksumOf(message)
  {
    sum := 0;
    sum := FletcherAdd(sum, message.methodName);
    sum := FletcherAdd(sum, message.payload);
    FletcherConcat(0, message.methodName, message.payload);
  }

  /** An empty method name and an empty payload give checksum 0. */
  lemma ChecksumOfEmpty(c: Uint32)
    ensures ChecksumOf(RpcWrapper([], [], c)) == 0
  {
    assert RpcWrapper([], [], c).methodName + RpcWrapper([], [], c).payload == [];
    FletcherEmpty(0);
  }

  /** The message with its checksum field set from its own contents. */
  function Stamp(m: RpcWrapper): (r: RpcWrapper)
    ensures r.methodName == m.methodName && r.payload == m.payload
    ensures r.checksum == ChecksumOf(m) && ChecksumOf(r) == r.checksum
  {
    m.(checksum := ChecksumOf(m))
  }

  /** The checksum does not read the checksum field, so stamping passes the check and restamping changes nothing. */
  lemma StampIsConsistent(m: RpcWrapper)
    ensures ChecksumOf(Stamp(m)) == Stamp(m).checksum
    ensures Stamp(Stamp(m)) == Stamp(m)
  {
  }

  /** A stamped message with one payload byte changed fails the check. */
  lemma CorruptedPayloadFailsCheck(m: RpcWrapper, i: int, b: Byte)
    requires 0 <= i < |m.payload| && b != m.payload[i]
    ensures var bad := Stamp(m).(payload := m.payload[i := b]);
            ChecksumOf(bad) != bad.checksum
  {
    var k := |m.methodName| + i;
    assert m.methodName + m.payload[i := b] == (m.methodName + m.payload)[k := b];
    FletcherDetectsByteChange(0, m.methodName + m.payload, k, b);
  }

  /**
   * IChannel::send_message: the checksum field is set from the message's
   * contents before the message is serialised and sent; the sending itself
   * is not part of this model.
   */
  method SendMessage(message: RpcWrapper) returns (sent: RpcWrapper)
    ensures sent == Stamp(message)
    ensures ChecksumOf(sent) == sent.checksum
  {
    var sum := Checksum(message);
    sent := message.(checksum := sum);
  }

  /**
   * IChannel::recv_message. `received` is what recv_bytes delivered (None
   * when it delivered nothing) and `parse` stands for ParseFromArray. The
   * message is left as it was when nothing arrives or parsing fails.
   */
  method RecvMessage(message: RpcWrapper, received: Option<seq<Byte>>, parse: seq<Byte> -> Option<RpcWrapper>)
    returns (code: int, result: RpcWrapper)
    ensures code == 0 <==> received.None?
    ensures code == 1 <==>
      received.Some? && parse(received.value).Some? && ChecksumOf(parse(received.value).value) == parse(received.value).value.checksum
    ensures code == -1 || code == 0 || code == 1
    ensures received.Some? && parse(received.value).Some? ==> result == parse(received.value).value
    ensures received.None? || parse(received.value).None? ==> result == message
  {
    result := message;
    if received.None? {
      return 0, result;
    }
    var parsed := parse(received.value);
    if parsed.None? {
      return -1, result;
    }
    result := parsed.value;
    var sum := Checksum(result);
    if sum != result.checksum {
      return -1, result;
    }
    return 1, result;
  }

  // ---------------------------------------------------------------------
  // IChannel::make
  // ---------------------------------------------------------------------

  /** The transports a channel can be made for, with the client name they are given. */
  datatype Channel = AmqpChannel(clientName: string) | ZeroMQChannel(clientName: string)

  datatype ChannelError = NoImplErr(scheme: string)

  const AmqpSchemes: set<string> := {"pf", "amqp"}
  const ZeroMQSchemes: set<string> := {"zmq", "zmq+ipc", "zmq+tcp", "zmq+inproc"}

  /**
   * IChannel::make. haveRabbitMq and haveZeroMq are the build-time switches
   * VW_HAVE_PKG_RABBITMQ_C and VW_HAVE_PKG_ZEROMQ.
   */
  function Make(scheme: string, clientName: string, haveRabbitMq: bool, haveZeroMq: bool): (r: Result<Channel, ChannelError>)
    ensures r.Ok? <==> (haveRabbitMq && scheme in AmqpSchemes) || (haveZeroMq && scheme in ZeroMQSchemes)
    ensures r.Ok? ==> r.value.clientName == clientName
    ensures r.Ok? ==> (r.value.AmqpChannel? <==> scheme in AmqpSchemes)
    ensures r.Err? ==> r.error == NoImplErr(scheme)
  {
    if haveRabbitMq && (scheme == "pf" || scheme == "amqp") then
      Ok(AmqpChannel(clientName))
    else if haveZeroMq && (scheme == "zmq" || scheme == "zmq+ipc" || scheme == "zmq+tcp" || scheme == "zmq+inproc") then
      Ok(ZeroMQChannel(clientName))
    else
      Err(NoImplErr(scheme))
  }
}
