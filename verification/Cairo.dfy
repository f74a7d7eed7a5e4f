/** The dispatched Cairo executable, crates/soul-cairo/src/lib.cairo, and its flattened argument ABI. */
module Cairo {
  import opened Wrappers
  import opened Felt
  import opened Types
  import opened Fibonacci
  import opened Merkle

  const FIBONACCI_SERVICE: int := 1
  const HASH_VERIFY_SERVICE: int := 2
  const MERKLE_PROOF_SERVICE: int := 3
  const U8_LIMIT: int := 256
  const U32_LIMIT: int := 0x1_0000_0000

  type U8 = x: int | 0 <= x < U8_LIMIT

  datatype Call = Call(service: U8, publicInput: seq<Felt>, privateInput: seq<Felt>)
  datatype Return = Return(service: U8, publicInput: seq<Felt>, output: seq<Felt>)

  // ---- what the program promises -----------------------------------------

  /** The calls on which no assertion of the program fails. */
  predicate Accepted(c: Call) {
    || (c.service == 1 && |c.publicInput| == 1 && c.privateInput == []
        && c.publicInput[0] <= 363)
    || (c.service == 2 && |c.publicInput| == 1 && |c.privateInput| == 1)
    || (c.service == 3 && |c.publicInput| == 3 && |c.privateInput| <= 32
        && c.publicInput[2] < Pow2(|c.privateInput|))
  }

  /** The single output value: an integer Fibonacci number, or the truth of a hash or Merkle claim. */
  function Answer(poseidon: Poseidon, c: Call): (x: int)
    requires Accepted(c)
  {
    if c.service == 1 then Fib(c.publicInput[0])
    else if c.service == 2 then BoolFelt(poseidon([c.privateInput[0]]) == c.publicInput[0])
    else BoolFelt(FoldPath(poseidon, c.publicInput[1], c.privateInput, c.publicInput[2]) == c.publicInput[0])
  }

  // ---- the program -------------------------------------------------------

  function TryIntoU64(x: Felt): Option<U64> {
    if x < U64_LIMIT then Some(x) else None
  }

  /** Checked `2_u64.pow(depth)`. */
  function CheckedPow2(depth: nat): Option<U64> {
    if Pow2(depth) < U64_LIMIT then Some(Pow2(depth)) else None
  }

  method VerifyHash(poseidon: Poseidon, expected: Felt, preimage: Felt) returns (valid: bool)
    ensures valid <==> poseidon([preimage]) == expected
  {
    var data: seq<Felt> := [];
    data := data + [preimage];
    assert data == [preimage];
    valid := poseidon(data) == expected;
  }

  /** The executable's entry point. `None` is a Cairo panic. */
  method Execute(poseidon: Poseidon, service: U8, publicInput: seq<Felt>, privateInput: seq<Felt>)
    returns (r: Option<Return>)
    ensures r.Some? <==> Accepted(Call(service, publicInput, privateInput))
    ensures r.Some? ==>
      && r.value.service == service && r.value.publicInput == publicInput
      && |r.value.output| == 1
      && r.value.output[0] == Answer(poseidon, Call(service, publicInput, privateInput))
  {
    var output: seq<Felt> := [];
    if service == FIBONACCI_SERVICE {
      if |publicInput| != 1 || privateInput != [] {
        return None;
      }
      var n := TryIntoU64(publicInput[0]);
      if n.None? || n.value > MAX_FIBONACCI_N {
        return None;
      }
      var f := ComputeFibonacci(n.value);
      NoWrapExactlyInRange(n.value);
      output := output + [f.value];
    } else if service == HASH_VERIFY_SERVICE {
      if |publicInput| != 1 || |privateInput| != 1 {
        return None;
      }
      var valid := VerifyHash(poseidon, publicInput[0], privateInput[0]);
      output := output + [if valid then 1 else 0];
    } else if service == MERKLE_PROOF_SERVICE {
      if |publicInput| != 3 || |privateInput| > MAX_MERKLE_DEPTH {
        return None;
      }
      DepthFitsU64(|privateInput|);
      var index := TryIntoU64(publicInput[2]);
      var maxIndex := CheckedPow2(|privateInput|);
      if index.None? || maxIndex.None? || index.value >= maxIndex.value {
        return None;
      }
      var valid := VerifyMerkleProof(poseidon, publicInput[0], publicInput[1], privateInput, index.value);
      output := output + [if valid then 1 else 0];
    } else {
      return None;
    }
    r := Some(Return(service, publicInput, output));
  }

  /** Up to the depth bound the power never overflows, so the Cairo and Rust index tests agree. */
  lemma DepthFitsU64(depth: nat)
    requires depth <= MAX_MERKLE_DEPTH
    ensures Pow2(depth) <= U32_LIMIT
  {
    Pow2Monotone(depth, 32);
    assert Pow2(8) == 0x100;
    assert Pow2(14) == 0x4000;
    assert Pow2(20) == 0x10_0000;
    assert Pow2(26) == 0x400_0000;
  }

  lemma {:induction false} Pow2Monotone(a: nat, b: nat)
    requires a <= b
    ensures Pow2(a) <= Pow2(b)
  {
    if a < b {
      Pow2Monotone(a, b - 1);
    }
  }

  // ---- flattened Serde form ----------------------------------------------

  function SerializeArray(a: seq<Felt>): seq<Felt>
    requires |a| < U32_LIMIT
  {
    [|a|] + a
  }

  function SerializeCall(c: Call): seq<Felt>
    requires |c.publicInput| < U32_LIMIT && |c.privateInput| < U32_LIMIT
  {
    [c.service] + SerializeArray(c.publicInput) + SerializeArray(c.privateInput)
  }

  function SerializeReturn(r: Return): seq<Felt>
    requires |r.publicInput| < U32_LIMIT && |r.output| < U32_LIMIT
  {
    [r.service] + SerializeArray(r.publicInput) + SerializeArray(r.output)
  }

  function DeserializeArray(args: seq<Felt>): (r: Option<(seq<Felt>, seq<Felt>)>)
    ensures r.Some? ==> |r.value.0| < U32_LIMIT && SerializeArray(r.value.0) + r.value.1 == args
  {
    if args == [] || args[0] >= U32_LIMIT || |args| - 1 < args[0] then None
    else
      var n := args[0];
      assert args == [n] + args[1..1 + n] + args[1 + n..];
      Some((args[1..1 + n], args[1 + n..]))
  }

  /** The argument list the executable wrapper accepts: a u8, two arrays, and nothing else. */
  function DeserializeCall(args: seq<Felt>): (r: Option<Call>)
    ensures r.Some? ==>
      && |r.value.publicInput| < U32_LIMIT && |r.value.privateInput| < U32_LIMIT
      && SerializeCall(r.value) == args
  {
    if args == [] || args[0] >= U8_LIMIT then None
    else
      match DeserializeArray(args[1..])
      case None => None
      case Some((pub, rest)) =>
        match DeserializeArray(rest)
        case None => None
        case Some((priv, end)) =>
          if end != [] then None
          else
            assert args == [args[0]] + args[1..];
            Some(Call(args[0], pub, priv))
  }

  lemma DeserializeSerializedCall(c: Call)
    requires |c.publicInput| < U32_LIMIT && |c.privateInput| < U32_LIMIT
    ensures DeserializeCall(SerializeCall(c)) == Some(c)
  {
    var tail := SerializeArray(c.privateInput);
    assert SerializeCall(c)[1..] == SerializeArray(c.publicInput) + tail;
    DeserializeSerializedArray(c.publicInput, tail);
    assert tail + [] == tail;
    DeserializeSerializedArray(c.privateInput, []);
  }

  lemma DeserializeSerializedArray(a: seq<Felt>, rest: seq<Felt>)
    requires |a| < U32_LIMIT
    ensures DeserializeArray(SerializeArray(a) + rest) == Some((a, rest))
  {
    var args := SerializeArray(a) + rest;
    assert args[1..1 + |a|] == a && args[1 + |a|..] == rest;
  }
}
