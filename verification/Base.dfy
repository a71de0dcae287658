/** Machine integers, public keys, results and the program's error codes. */
module Base {

  type byte = b: int | 0 <= b < 0x100
  type u16 = n: int | 0 <= n < 0x1_0000
  type u64 = n: int | 0 <= n < U64_LIMIT

  const U64_LIMIT: int := 0x1_0000_0000_0000_0000
  const U32_LIMIT: int := 0x1_0000_0000

  function Zeros(n: nat): (z: seq<byte>)
    ensures |z| == n
  {
    seq(n, _ => 0)
  }

  type Bytes8 = s: seq<byte> | |s| == 8 witness Zeros(8)
  type Bytes32 = s: seq<byte> | |s| == 32 witness Zeros(32)
  type Bytes64 = s: seq<byte> | |s| == 64 witness Zeros(64)

  /** A 32-byte Solana address. */
  datatype Key = Key(bytes: Bytes32)

  /** `Pubkey::default()`, which as an admin means "revoked". */
  const DEFAULT_KEY: Key := Key(Zeros(32))

  datatype Option<+T> = None | Some(value: T)

  datatype Result<+T> = Ok(value: T) | Err(error: Error) {
    predicate IsFailure() {
      Err?
    }

    function PropagateFailure<U>(): Result<U>
      requires Err?
    {
      Err(error)
    }

    function Extract(): T
      requires Ok?
    {
      value
    }
  }

  datatype Unit = Unit

  /**
    The program's own errors, then the runtime's. `Aborted` stands for every way
    the runtime ends a transaction itself: an overflow or index trap, or a failed
    cross-program call. `Unbalanced` is its check that no lamports appear or vanish.
   */
  datatype Error =
    | AlreadyInitialized
    | NotInitialized
    | InvalidPDA
    | MissingRequiredSigner
    | InvalidAuthority
    | AdminRevoked
    | InvalidShareTotal
    | TooManyRecipients
    | LockedShareViolation
    | NoRecipients
    | NothingToDistribute
    | RecipientCountMismatch
    | RecipientAddressMismatch
    | InvalidTokenProgram
    | InvalidTokenAccountOwner
    | InvalidTokenAccountMint
    | NotARecipient
    | LockShareNotIncreased
    | LockShareExceedsCurrent
    | ZeroShare
    | TooManyWhitelistedMints
    | SellConfigNotFound
    | TokenWhitelisted
    | SellConfigSplitterMismatch
    | TooManyApprovedPrograms
    | SwapProgramNotApproved
    | DestinationNotAllowed
    | SwapSourceNotDecreased
    | SwapDestNotIncreased
    | NameTooLong
    | NotEnoughAccountKeys
    | InvalidAccountData
    | InvalidInstructionData
    | BufferTooSmall
    | Unbalanced
    | Aborted
}
