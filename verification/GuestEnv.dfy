/** The guest environment buffer of risc_zero.rs: inputs behind little-endian u32 length prefixes. */
module GuestEnv {
  import opened Bytes
  import opened Wrappers

  type Input = seq<byte>

  const U32: nat := 0x1_0000_0000

  /** Bytes of a length prefix. */
  const PREFIX: nat := 4

  /** One input as written; the length is truncated to 32 bits. */
  function Chunk(input: Input): seq<byte> {
    LittleEndian(|input| % U32, PREFIX) + input
  }

  function Buffer(inputs: seq<Input>): seq<byte> {
    if inputs == [] then [] else Chunk(inputs[0]) + Buffer(inputs[1..])
  }

  lemma {:induction false} BufferAppend(inputs: seq<Input>, input: Input)
    ensures Buffer(inputs + [input]) == Buffer(inputs) + Chunk(input)
  {
    if inputs == [] {
      assert [input][1..] == [];
    } else {
      assert (inputs + [input])[1..] == inputs[1..] + [input];
      BufferAppend(inputs[1..], input);
    }
  }

  /** Each input is written whole, behind the low 32 bits of its length. */
  lemma ChunkReads(input: Input)
    ensures |Chunk(input)| == 4 + |input| && Chunk(input)[4..] == input
    ensures FromLittleEndian(Chunk(input)[..4]) == |input| % 0x1_0000_0000
  {
    LengthPrefix(|input| % U32);
    assert Chunk(input)[..4] == LittleEndian(|input| % U32, PREFIX);
  }

  method BuildGuestEnv(publicInputs: seq<Input>, privateInputs: seq<Input>) returns (env: seq<byte>)
    ensures env == Buffer(publicInputs + privateInputs)
  {
    env := [];
    var inputs := publicInputs + privateInputs;
    for i := 0 to |inputs|
      invariant env == Buffer(inputs[..i])
    {
      var bytes := inputs[i];
      var len := LittleEndian(|bytes| % U32, PREFIX);
      env := env + len;
      env := env + bytes;
      BufferAppend(inputs[..i], bytes);
      assert inputs[..i + 1] == inputs[..i] + [bytes];
    }
    assert inputs[..|inputs|] == inputs;
  }

  /** The inputs a guest reads; None when a prefix or an input is cut short. */
  function Parse(env: seq<byte>): Option<seq<Input>>
    decreases |env|
  {
    if env == [] then Some([])
    else if |env| < PREFIX then None
    else
      var n := FromLittleEndian(env[..PREFIX]);
      if |env| < PREFIX + n then None
      else
        match Parse(env[PREFIX + n..])
        case None => None
        case Some(rest) => Some([env[PREFIX..PREFIX + n]] + rest)
  }

  ghost predicate Short(inputs: seq<Input>) {
    forall i | 0 <= i < |inputs| :: |inputs[i]| < U32
  }

  lemma {:induction false} ParsedAreShort(env: seq<byte>)
    ensures Parse(env).Some? ==> Short(Parse(env).value)
    decreases |env|
  {
    if |env| >= PREFIX {
      var n := FromLittleEndian(env[..PREFIX]);
      LittleEndianBound(env[..PREFIX]);
      assert Pow256(PREFIX) == U32;
      assert n < U32;
      if |env| >= PREFIX + n {
        ParsedAreShort(env[PREFIX + n..]);
      }
    }
  }

  lemma LengthPrefix(n: nat)
    requires n < U32
    ensures FromLittleEndian(LittleEndian(n, PREFIX)) == n
  {
    assert Pow256(PREFIX) == U32;
    LittleEndianRead(n, PREFIX);
  }

  lemma ParseOnce(len: seq<byte>, input: Input, rest: seq<byte>)
    requires |len| == PREFIX && FromLittleEndian(len) == |input| && Parse(rest).Some?
    ensures Parse(len + input + rest) == Some([input] + Parse(rest).value)
  {
    var env := len + input + rest;
    assert env[..PREFIX] == len;
    assert env[PREFIX..PREFIX + |input|] == input;
    assert env[PREFIX + |input|..] == rest;
  }

  lemma ChunkIs(input: Input) returns (len: seq<byte>)
    requires |input| < U32
    ensures Chunk(input) == len + input && |len| == PREFIX && FromLittleEndian(len) == |input|
  {
    len := LittleEndian(|input|, PREFIX);
    LengthPrefix(|input|);
    assert |input| % U32 == |input|;
  }

  lemma ParseChunk(chunk: seq<byte>, input: Input, rest: seq<byte>)
    requires chunk == Chunk(input) && |input| < U32 && Parse(rest).Some?
    ensures Parse(chunk + rest) == Some([input] + Parse(rest).value)
  {
    var len := ChunkIs(input);
    ParseOnce(len, input, rest);
  }

  lemma {:induction false} ShortParse(inputs: seq<Input>)
    requires Short(inputs)
    ensures Parse(Buffer(inputs)) == Some(inputs)
  {
    if inputs != [] {
      var input := inputs[0];
      ShortParse(inputs[1..]);
      ParseChunk(Chunk(input), input, Buffer(inputs[1..]));
      assert inputs == [input] + inputs[1..];
    }
  }

  /** Parsing the buffer recovers the inputs if and only if each of them is shorter than 2^32 bytes. */
  lemma RoundTrip(inputs: seq<Input>)
    ensures Parse(Buffer(inputs)) == Some(inputs) <==> Short(inputs)
  {
    ParsedAreShort(Buffer(inputs));
    if Short(inputs) {
      ShortParse(inputs);
    }
  }

  /** Then the buffer determines the joint list of inputs, and nothing more: where the public ones end is not in it. */
  lemma Injective(public1: seq<Input>, private1: seq<Input>, public2: seq<Input>, private2: seq<Input>)
    requires Short(public1 + private1) && Short(public2 + private2)
    ensures Buffer(public1 + private1) == Buffer(public2 + private2) <==> public1 + private1 == public2 + private2
  {
    ShortParse(public1 + private1);
    ShortParse(public2 + private2);
  }
}
