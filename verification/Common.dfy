/** Vocabulary shared by every part of the model. */
module Common {

  /** The largest value of the source's `u64`. */
  const U64_MAX: nat := 0xFFFF_FFFF_FFFF_FFFF

  /** How many values a `u64` has. */
  const U64_SIZE: nat := 0x1_0000_0000_0000_0000

  const U32_SIZE: nat := 0x1_0000_0000

  type U64 = n: nat | n < U64_SIZE

  /** What unchecked `u64` arithmetic leaves of an exact result in a build without overflow checks: its
      remainder, found by subtraction to spare the proofs a large modulus. */
  function Wrap(n: nat): U64 {
    if n < U64_SIZE then n else Wrap(n - U64_SIZE)
  }

  /** The source's cast `n as u32`. */
  function AsU32(n: nat): nat {
    if n < U32_SIZE then n else AsU32(n - U32_SIZE)
  }

  lemma {:induction false} WrapIsRemainder(n: nat)
    ensures Wrap(n) == n % U64_SIZE
  {
    if n >= U64_SIZE {
      WrapIsRemainder(n - U64_SIZE);
    }
  }

  lemma {:induction false} AsU32IsRemainder(n: nat)
    ensures AsU32(n) == n % U32_SIZE
  {
    if n >= U32_SIZE {
      AsU32IsRemainder(n - U32_SIZE);
    }
  }

  /** The source's unchecked `v + 1`. */
  function Succ(v: U64): U64 {
    Wrap(v + 1)
  }

  lemma SuccOf(v: U64)
    ensures Succ(v) == if v == U64_MAX then 0 else v + 1
  {
  }

  /** The source's cast `v as u8`. */
  type U8 = n: nat | n < 256

  function LowByte(v: U64): U8 {
    v % 256
  }

  type Byte = n: nat | n < 256

  /** The source's `Vec<u8>`: the keys and contents of entries. */
  datatype Bytes = Bytes(content: seq<Byte>)

  /** A public key, standing for its place in the total order the source derives on keys. */
  type PublicKey = nat

  /** A network name: the name of a key, or any other one. */
  datatype XorName = KeyName(key: PublicKey) | RawName(bits: nat)

  datatype Option<+T> = None | Some(value: T)

  datatype Result<+T> = Ok(value: T) | Err(error: Error)

  datatype EntryError =
    | NoSuchEntry
    | EntryExists(current: U8)
    | InvalidSuccessor(current: U8)

  datatype Error =
    | AccessDenied
    | NoSuchEntry
    | NoSuchKey
    | InvalidEntryActions(errors: map<Bytes, EntryError>)
    | InvalidOwners
    | InvalidSuccessor(version: U64)
    | InvalidOperation
    | LossOfPrecision
    | ExcessiveValue
    | FailedToParse(message: string)
}
