/** Instrument identity: exact on-chain identifiers, read from and written to canonical documents. */
module Identity {

  import opened Outcomes
  import opened AbiWords
  import opened Decimals
  import opened JsonDocuments
  import opened Domain

  /** Chain ids are below 2^63 - 36, that bound included. */
  const MAX_CHAIN_ID: int := 0x7FFF_FFFF_FFFF_FFDC

  predicate IsHexDigit(c: char) {
    '0' <= c <= '9' || 'a' <= c <= 'f'
  }

  predicate IsHexAddress(s: string) {
    && |s| == 42 && s[..2] == "0x"
    && (forall i :: 2 <= i < 42 ==> IsHexDigit(s[i]))
    && exists i :: 2 <= i < 42 && s[i] != '0'
  }

  /** A lowercase address that is not zero; the pattern also matches before a final newline. */
  predicate IsEvmAddress(s: string) {
    IsHexAddress(s) || IsHexAddress(Chopped(s))
  }

  // ---------------------------------------------------------------------------------
  // Base 58
  // ---------------------------------------------------------------------------------

  const ALPHABET: string := "123456789" + "ABCDEFGH" + "JKLMN" + "PQRSTUVWXYZ" + "abcdefghijk" + "mnopqrstuvwxyz"

  function IndexIn(s: string, c: char): Option<nat> {
    if s == "" then None
    else if s[|s| - 1] == c then Some(|s| - 1)
    else IndexIn(s[..|s| - 1], c)
  }

  /** The number a base-58 text denotes, if all its characters are digits. */
  function Number58(text: string): Option<nat> {
    if text == "" then Some(0)
    else
      var init, digit := Number58(text[..|text| - 1]), IndexIn(ALPHABET, text[|text| - 1]);
      if init.None? || digit.None? then None else Some(init.value * 58 + digit.value)
  }

  function LeadingOnes(text: string): nat {
    if text != "" && text[0] == '1' then 1 + LeadingOnes(text[1..]) else 0
  }

  /** The shortest big-endian bytes of a number. */
  function Minimal(n: nat): seq<byte> {
    if n == 0 then [] else Minimal(n / 256) + [(n % 256) as byte]
  }

  function Decoded58(text: string): Option<seq<byte>> {
    var number := Number58(text);
    if number.None? then None else Some(Zeros(LeadingOnes(text)) + Minimal(number.value))
  }

  method DecodeBase58(text: string) returns (r: Option<seq<byte>>)
    ensures r == Decoded58(text)
  {
    var num := 0;
    for i := 0 to |text|
      invariant Number58(text[..i]) == Some(num)
    {
      assert text[..i + 1][..i] == text[..i];
      var digit := IndexIn(ALPHABET, text[i]);
      if digit.None? {
        UnreadableStays(text, i + 1);
        return None;
      }
      num := num * 58 + digit.value;
    }
    assert text[..|text|] == text;
    var zeros := 0;
    while zeros < |text| && text[zeros] == '1'
      invariant zeros <= |text| && LeadingOnes(text) == zeros + LeadingOnes(text[zeros..])
    {
      zeros := zeros + 1;
    }
    return Some(Zeros(zeros) + Minimal(num));
  }

  lemma {:induction false} UnreadableStays(text: string, i: nat)
    requires i <= |text| && Number58(text[..i]) == None
    ensures Number58(text) == None
    decreases |text|
  {
    if i < |text| {
      assert text[..|text| - 1][..i] == text[..i];
      UnreadableStays(text[..|text| - 1], i);
    } else {
      assert text[..i] == text;
    }
  }

  /** A mint decodes to exactly 32 bytes that are not all zero. */
  predicate IsMint(s: string) {
    && 32 <= |s| <= 44
    && Decoded58(s).Some? && |Decoded58(s).value| == 32 && Decoded58(s).value != Zeros(32)
  }

  // ---------------------------------------------------------------------------------
  // References
  // ---------------------------------------------------------------------------------

  predicate IsRef(ref: InstrumentRef) {
    match ref
    case Evm(chainId, contract) => 1 <= chainId <= MAX_CHAIN_ID && IsEvmAddress(contract)
    case Solana(_, mint, _) => IsMint(mint)
  }

  function ClusterName(c: Cluster): string {
    match c
    case MainnetBeta => "mainnet-beta"
    case Devnet => "devnet"
    case Testnet => "testnet"
  }

  function ClusterOf(s: string): Option<Cluster> {
    if s == "mainnet-beta" then Some(MainnetBeta)
    else if s == "devnet" then Some(Devnet)
    else if s == "testnet" then Some(Testnet)
    else None
  }

  function ProgramName(p: TokenProgram): string {
    if p == SplToken then "SPL_TOKEN" else "TOKEN_2022"
  }

  function ProgramOf(s: string): Option<TokenProgram> {
    if s == "SPL_TOKEN" then Some(SplToken) else if s == "TOKEN_2022" then Some(Token2022) else None
  }

  const EVM_KEYS: set<string> := {"namespace", "chain_id", "contract_address"}
  const SOLANA_KEYS: set<string> := {"namespace", "cluster", "mint_address", "token_program"}

  function ReadEvm(fields: map<string, Json>): Result<InstrumentRef>
    requires fields.Keys == EVM_KEYS
  {
    match (fields["chain_id"], fields["contract_address"])
    case (Integer(chainId), Text(contract)) =>
      if IsRef(Evm(chainId, contract)) then Ok(Evm(chainId, contract)) else Refused(Malformed)
    case _ => Refused(Malformed)
  }

  function ReadSolana(fields: map<string, Json>): Result<InstrumentRef>
    requires fields.Keys == SOLANA_KEYS
  {
    match (fields["cluster"], fields["mint_address"], fields["token_program"])
    case (Text(cluster), Text(mint), Text(program)) =>
      if ClusterOf(cluster).None? || ProgramOf(program).None? || !IsMint(mint) then Refused(Malformed)
      else Ok(Solana(ClusterOf(cluster).value, mint, ProgramOf(program).value))
    case _ => Refused(Malformed)
  }

  /** Reads a reference; the keys of one namespace are refused in the other. */
  function ReadRef(v: Json): Result<InstrumentRef> {
    if !v.Object? || "namespace" !in v.fields then Refused(Malformed)
    else if v.fields["namespace"] == Text("evm") then
      if v.fields.Keys == EVM_KEYS then ReadEvm(v.fields) else Refused(Malformed)
    else if v.fields["namespace"] == Text("solana") then
      if v.fields.Keys == SOLANA_KEYS then ReadSolana(v.fields) else Refused(Malformed)
    else Refused(Malformed)
  }

  /** The identity view of a reference. */
  function IdentityFields(ref: InstrumentRef): Json {
    match ref
    case Evm(chainId, contract) =>
      Object(map["namespace" := Text("evm"), "chain_id" := Integer(chainId), "contract_address" := Text(contract)])
    case Solana(cluster, mint, program) =>
      Object(map["namespace" := Text("solana"), "cluster" := Text(ClusterName(cluster)),
                 "mint_address" := Text(mint), "token_program" := Text(ProgramName(program))])
  }

  /** The budget scope of a reference. */
  datatype Network = EvmNetwork(chainId: int) | SolanaNetwork(cluster: Cluster)

  function NetworkOf(ref: InstrumentRef): Network {
    match ref
    case Evm(chainId, _) => EvmNetwork(chainId)
    case Solana(cluster, _, _) => SolanaNetwork(cluster)
  }

  /** What is read is a reference, and its identity view is the document it was read from. */
  lemma ReadRefIsFaithful(v: Json)
    ensures ReadRef(v).Ok? ==> IsRef(ReadRef(v).value) && IdentityFields(ReadRef(v).value) == v
  {
    if ReadRef(v).Ok? {
      match ReadRef(v).value
      case Evm(chainId, contract) =>
        assert v.fields == map["namespace" := Text("evm"), "chain_id" := Integer(chainId), "contract_address" := Text(contract)];
      case Solana(cluster, mint, program) =>
        assert v.fields == map["namespace" := Text("solana"), "cluster" := Text(ClusterName(cluster)),
                               "mint_address" := Text(mint), "token_program" := Text(ProgramName(program))];
    }
  }

  /** Reading an identity view gives the reference back. */
  lemma IdentityRoundTrip(ref: InstrumentRef)
    requires IsRef(ref)
    ensures ReadRef(IdentityFields(ref)) == Ok(ref)
  {
    var v := IdentityFields(ref);
    match ref
    case Evm(chainId, contract) =>
      assert v.fields.Keys == EVM_KEYS;
    case Solana(cluster, mint, program) =>
      assert v.fields.Keys == SOLANA_KEYS;
  }
}
