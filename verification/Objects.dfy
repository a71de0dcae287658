/** The program's mutable objects: the two account structs as handlers hold them in memory. */
module Objects {
  import opened Base
  import opened Ledgers
  import opened Records
  import opened Buffers

  /** `struct Splitter`, with its fixed arrays updated in place. */
  class SplitterState {
    var discriminator: Bytes8
    var creator: Key
    var admin: Key
    var nonce: u64
    var bump: byte
    var numRecipients: byte
    var recipients: array<Recipient>
    var nameLen: byte
    var name: array<byte>

    ghost predicate Valid()
      reads this
    {
      recipients.Length == 10 && name.Length == 64
    }

    function Record(): Splitter
      requires Valid()
      reads this, recipients, name
    {
      Splitter(discriminator, creator, admin, nonce, bump, numRecipients, recipients[..], nameLen, name[..])
    }

    /** The state deserialised from an account. */
    constructor FromRecord(s: Splitter)
      ensures Valid() && fresh(recipients) && fresh(name)
      ensures Record() == s
    {
      discriminator, creator, admin := s.discriminator, s.creator, s.admin;
      nonce, bump, numRecipients, nameLen := s.nonce, s.bump, s.numRecipients, s.nameLen;
      recipients := new Recipient[10](i requires 0 <= i < 10 => s.recipients[i]);
      name := new byte[64](i requires 0 <= i < 64 => s.name[i]);
      new;
      assert recipients[..] == s.recipients && name[..] == s.name;
    }

    /** A new splitter pays everything to its creator. */
    constructor New(creator: Key, nonce: u64, bump: byte, name: seq<byte>)
      ensures Valid() && fresh(recipients) && fresh(this.name)
      ensures Record() == NewSplitter(creator, nonce, bump, name)
    {
      this.discriminator := SPLITTER_DISCRIMINATOR;
      this.creator, this.admin, this.nonce, this.bump := creator, creator, nonce, bump;
      this.numRecipients := 1;
      this.recipients := new Recipient[10](_ => NO_RECIPIENT);
      this.nameLen := 0;
      this.name := new byte[64](_ => 0);
      new;
      recipients[0] := Recipient(creator, TOTAL_SHARES, 0);
      assert recipients[..] == PadTable([Recipient(creator, TOTAL_SHARES, 0)]);
      assert this.name[..] == Zeros(64);
      SetName(name);
    }

    /** Copies at most 64 bytes, zeroes the rest and records the length. */
    method SetName(name: seq<byte>)
      requires Valid()
      modifies this`nameLen, this.name
      ensures Valid() && this.name == old(this.name) && recipients == old(recipients)
      ensures Record() == WithName(old(Record()), name)
    {
      var len := if |name| < MAX_NAME_LEN then |name| else MAX_NAME_LEN;
      CopyInto(this.name, 0, name[..len]);
      FillZero(this.name, len);
      nameLen := len;
      assert name[..|name|] == name;
      assert this.name[..] == PadName(name[..len]);
    }
  }

  /** `struct SellConfig`, with its two fixed tables. */
  class SellConfigState {
    var discriminator: Bytes8
    var splitter: Key
    var numWhitelisted: byte
    var whitelistedMints: array<Key>
    var numApprovedPrograms: byte
    var approvedPrograms: array<Key>
    var bump: byte

    ghost predicate Valid()
      reads this
    {
      whitelistedMints.Length == 10 && approvedPrograms.Length == 5
    }

    function Record(): SellConfig
      requires Valid()
      reads this, whitelistedMints, approvedPrograms
    {
      SellConfig(discriminator, splitter, numWhitelisted, whitelistedMints[..],
                 numApprovedPrograms, approvedPrograms[..], bump)
    }

    constructor FromRecord(c: SellConfig)
      ensures Valid() && fresh(whitelistedMints) && fresh(approvedPrograms)
      ensures Record() == c
    {
      discriminator, splitter, bump := c.discriminator, c.splitter, c.bump;
      numWhitelisted, numApprovedPrograms := c.numWhitelisted, c.numApprovedPrograms;
      whitelistedMints := new Key[10](i requires 0 <= i < 10 => c.whitelistedMints[i]);
      approvedPrograms := new Key[5](i requires 0 <= i < 5 => c.approvedPrograms[i]);
      new;
      assert whitelistedMints[..] == c.whitelistedMints && approvedPrograms[..] == c.approvedPrograms;
    }

    constructor New(splitter: Key, bump: byte)
      ensures Valid() && fresh(whitelistedMints) && fresh(approvedPrograms)
      ensures Record() == NewSellConfig(splitter, bump, [], []) && this.splitter == splitter && this.bump == bump
    {
      this.discriminator, this.splitter, this.bump := SELL_CONFIG_DISCRIMINATOR, splitter, bump;
      numWhitelisted, numApprovedPrograms := 0, 0;
      whitelistedMints := new Key[10](_ => DEFAULT_KEY);
      approvedPrograms := new Key[5](_ => DEFAULT_KEY);
      new;
      assert whitelistedMints[..] == PadKeys([], 10) && approvedPrograms[..] == PadKeys([], 5);
    }

    /** Fills the tables of a new configuration. */
    method Fill(mints: seq<Key>, programs: seq<Key>)
      requires Valid() && |mints| <= 10 && |programs| <= 5
      requires Record() == NewSellConfig(splitter, bump, [], [])
      modifies this, whitelistedMints, approvedPrograms
      ensures Valid()
      ensures Record() == NewSellConfig(old(splitter), old(bump), mints, programs)
    {
      numWhitelisted := |mints|;
      assert forall j :: 0 <= j < 10 ==> whitelistedMints[j] == PadKeys([], 10)[j];
      assert forall j :: 0 <= j < 5 ==> approvedPrograms[j] == PadKeys([], 5)[j];
      for i := 0 to |mints|
        modifies whitelistedMints
        invariant forall j :: 0 <= j < i ==> whitelistedMints[j] == mints[j]
        invariant forall j :: i <= j < 10 ==> whitelistedMints[j] == DEFAULT_KEY
        invariant forall j :: 0 <= j < 5 ==> approvedPrograms[j] == DEFAULT_KEY
      {
        whitelistedMints[i] := mints[i];
      }
      assert whitelistedMints[..] == PadKeys(mints, 10);
      numApprovedPrograms := |programs|;
      for i := 0 to |programs|
        modifies approvedPrograms
        invariant forall j :: 0 <= j < i ==> approvedPrograms[j] == programs[j]
        invariant forall j :: i <= j < 5 ==> approvedPrograms[j] == DEFAULT_KEY
      {
        approvedPrograms[i] := programs[i];
      }
      assert approvedPrograms[..] == PadKeys(programs, 5);
    }

    /** The linear scan of the whitelist; it traps if the count exceeds the table. */
    method IsWhitelisted(mint: Key) returns (r: Result<bool>)
      requires Valid()
      ensures r == Scan(Record().whitelistedMints, Record().numWhitelisted, mint)
    {
      for i := 0 to numWhitelisted
        invariant i <= 10 && mint !in whitelistedMints[..i]
      {
        if i >= whitelistedMints.Length {
          return Err(Aborted);
        }
        if whitelistedMints[i] == mint {
          return Ok(true);
        }
      }
      return Ok(false);
    }

    method IsApprovedProgram(program: Key) returns (r: Result<bool>)
      requires Valid()
      ensures r == Scan(Record().approvedPrograms, Record().numApprovedPrograms, program)
    {
      for i := 0 to numApprovedPrograms
        invariant i <= 5 && program !in approvedPrograms[..i]
      {
        if i >= approvedPrograms.Length {
          return Err(Aborted);
        }
        if approvedPrograms[i] == program {
          return Ok(true);
        }
      }
      return Ok(false);
    }
  }
}
