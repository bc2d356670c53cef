/** The chain-parameter registry of tiltgap.c: the four tables the program
    defines itself (Litecoin and Dogecoin, main and test networks), the two
    Bitcoin tables it borrows from libbtc, and the lookup that maps the
    currency argument to one of them. */
module Chains {
  import opened CStrings
  import opened Wrappers

  newtype Byte = x: int | 0 <= x < 0x100
  newtype Word32 = x: int | 0 <= x < 0x1_0000_0000

  /** One `btc_chainparams` record, field by field in declaration order. */
  datatype ChainParams = ChainParams(
    chainName: string,
    pubkeyPrefix: Byte,      // version byte of P2PKH addresses
    scriptPrefix: Byte,      // version byte of P2SH addresses
    bech32Hrp: string,       // human-readable part of Bech32 addresses
    secretPrefix: Byte,      // version byte of WIF private keys
    bip32Privkey: Word32,    // extended private key magic
    bip32Pubkey: Word32,     // extended public key magic
    netMagic: seq<Byte>,
    genesisHash: seq<Byte>,
    defaultPort: int,
    dnsSeeds: seq<string>)

  /** The networks whose tables tiltgap.c defines. */
  datatype Network = LtcMain | LtcTest | DogeMain | DogeTest

  /** What `ccp` may point to: one of libbtc's two Bitcoin tables, whose
      values this model does not know, or one of the local tables. */
  datatype Chain = BitcoinMain | BitcoinTest | Local(net: Network)

  /** The fields the tables leave at their zero initialiser `{0}` / `0`. */
  predicate TrailingZero(p: ChainParams) {
    |p.netMagic| == 4 && (forall i :: 0 <= i < 4 ==> p.netMagic[i] == 0) &&
    |p.genesisHash| == 32 && (forall i :: 0 <= i < 32 ==> p.genesisHash[i] == 0) &&
    p.defaultPort == 0 &&
    |p.dnsSeeds| == 8 && (forall i :: 0 <= i < 8 ==> p.dnsSeeds[i] == "")
  }

  function ZeroBytes(n: nat): (r: seq<Byte>)
    ensures |r| == n && forall i :: 0 <= i < n ==> r[i] == 0
  {
    seq(n, _ => 0)
  }

  function EmptySeeds(): (r: seq<string>)
    ensures |r| == 8 && forall i :: 0 <= i < 8 ==> r[i] == ""
  {
    seq(8, _ => "")
  }

  function MakeParams(name: string, pubkey: Byte, script: Byte, hrp: string, secret: Byte,
                      xprv: Word32, xpub: Word32): (p: ChainParams)
    ensures TrailingZero(p)
    ensures p.chainName == name && p.bech32Hrp == hrp
    ensures p.pubkeyPrefix == pubkey && p.scriptPrefix == script && p.secretPrefix == secret
    ensures p.bip32Privkey == xprv && p.bip32Pubkey == xpub
  {
    ChainParams(name, pubkey, script, hrp, secret, xprv, xpub,
                ZeroBytes(4), ZeroBytes(32), 0, EmptySeeds())
  }

  /** The four tables as written. */
  function Table(n: Network): (p: ChainParams)
    ensures TrailingZero(p)
  {
    match n
    case LtcMain  => MakeParams("ltcmain",  0x30, 0x32, "ltc",   0xb0, 0x019d9cfe, 0x019da462)
    case LtcTest  => MakeParams("ltctest",  0x6f, 0x3a, "tltc",  0xef, 0x0436ef7d, 0x0436f6e1)
    case DogeMain => MakeParams("dogemain", 0x1e, 0x16, "doge",  0x9e, 0x02fac398, 0x02facafd)
    case DogeTest => MakeParams("dogetest", 0x71, 0xc4, "tdoge", 0xf1, 0x02fac398, 0x02facafd)
  }

  /** Both Dogecoin tables carry the same extended-key magic, and it
      differs from both Litecoin tables'. */
  lemma DogeExtendedKeysShared()
    ensures Table(DogeMain).bip32Privkey == Table(DogeTest).bip32Privkey == 0x02fac398
    ensures Table(DogeMain).bip32Pubkey == Table(DogeTest).bip32Pubkey == 0x02facafd
    ensures forall n: Network :: n.LtcMain? || n.LtcTest? ==>
              Table(n).bip32Privkey != 0x02fac398 && Table(n).bip32Pubkey != 0x02facafd
  {
  }

  /** Every local table has its own P2PKH, P2SH and WIF version bytes:
      each of the three fields identifies the network. */
  lemma PrefixesIdentifyNetwork(n: Network, m: Network)
    ensures Table(n).pubkeyPrefix == Table(m).pubkeyPrefix ==> n == m
    ensures Table(n).scriptPrefix == Table(m).scriptPrefix ==> n == m
    ensures Table(n).secretPrefix == Table(m).secretPrefix ==> n == m
  {
  }

  /** The bound every comparison of the lookup uses. */
  const CompareBound: nat := 5

  /** The codes the usage text lists. */
  const SupportedCodes: set<string> := {"btc", "tbtc", "ltc", "tltc", "doge", "tdoge"}

  /** The code of the usage text that names each table. */
  function Code(c: Chain): string {
    match c
    case BitcoinMain => "btc"
    case BitcoinTest => "tbtc"
    case Local(LtcMain) => "ltc"
    case Local(LtcTest) => "tltc"
    case Local(DogeMain) => "doge"
    case Local(DogeTest) => "tdoge"
  }

  /** The table the currency argument selects, `None` for "unsupported".
      The program tries the six codes in turn and each match overwrites
      `ccp`, so the last code that matches decides: read from the bottom. */
  function Resolve(currency: string): (r: Option<Chain>)
    ensures r.Some? ==> Code(r.value) in SupportedCodes && StrNCmpEq(currency, Code(r.value), CompareBound)
    ensures r.None? <==> forall code :: code in SupportedCodes ==> !StrNCmpEq(currency, code, CompareBound)
  {
    if StrNCmpEq(currency, "tdoge", CompareBound) then Some(Local(DogeTest))
    else if StrNCmpEq(currency, "doge", CompareBound) then Some(Local(DogeMain))
    else if StrNCmpEq(currency, "tltc", CompareBound) then Some(Local(LtcTest))
    else if StrNCmpEq(currency, "ltc", CompareBound) then Some(Local(LtcMain))
    else if StrNCmpEq(currency, "tbtc", CompareBound) then Some(BitcoinTest)
    else if StrNCmpEq(currency, "btc", CompareBound) then Some(BitcoinMain)
    else None
  }

  /** The lookup as the program runs it: six comparisons, each of which
      reassigns `ccp` when it matches. */
  method LookupChain(currency: string) returns (ccp: Option<Chain>)
    ensures ccp == Resolve(currency)
  {
    ccp := None;
    if StrNCmpEq(currency, "btc", CompareBound) { ccp := Some(BitcoinMain); }
    if StrNCmpEq(currency, "tbtc", CompareBound) { ccp := Some(BitcoinTest); }
    if StrNCmpEq(currency, "ltc", CompareBound) { ccp := Some(Local(LtcMain)); }
    if StrNCmpEq(currency, "tltc", CompareBound) { ccp := Some(Local(LtcTest)); }
    if StrNCmpEq(currency, "doge", CompareBound) { ccp := Some(Local(DogeMain)); }
    if StrNCmpEq(currency, "tdoge", CompareBound) { ccp := Some(Local(DogeTest)); }
  }

  /** What the lookup accepts, for every C string: the three- and
      four-letter codes only exactly, and "tdoge" followed by anything,
      because a bound of 5 never reaches that literal's terminator. */
  lemma ResolveMeaning(currency: string)
    requires NoNul(currency)
    ensures Resolve(currency) ==
      if currency == "btc" then Some(BitcoinMain)
      else if currency == "tbtc" then Some(BitcoinTest)
      else if currency == "ltc" then Some(Local(LtcMain))
      else if currency == "tltc" then Some(Local(LtcTest))
      else if currency == "doge" then Some(Local(DogeMain))
      else if |currency| >= 5 && currency[..5] == "tdoge" then Some(Local(DogeTest))
      else None
  {
    StrNCmpEqMeaning(currency, "btc", CompareBound);
    StrNCmpEqMeaning(currency, "tbtc", CompareBound);
    StrNCmpEqMeaning(currency, "ltc", CompareBound);
    StrNCmpEqMeaning(currency, "tltc", CompareBound);
    StrNCmpEqMeaning(currency, "doge", CompareBound);
    StrNCmpEqMeaning(currency, "tdoge", CompareBound);
    assert "tdoge"[..5] == "tdoge";
  }

  /** The lookup the usage text describes: the code must equal one of the
      six literals. */
  function ExactResolve(currency: string): (r: Option<Chain>)
    ensures r.Some? <==> currency in SupportedCodes
  {
    if currency == "btc" then Some(BitcoinMain)
    else if currency == "tbtc" then Some(BitcoinTest)
    else if currency == "ltc" then Some(Local(LtcMain))
    else if currency == "tltc" then Some(Local(LtcTest))
    else if currency == "doge" then Some(Local(DogeMain))
    else if currency == "tdoge" then Some(Local(DogeTest))
    else None
  }

  /** The bounded lookup agrees with the exact one on every C string except
      those that extend "tdoge", which it sends to the Dogecoin test table. */
  lemma ResolveVersusExact(currency: string)
    requires NoNul(currency)
    ensures Resolve(currency) != ExactResolve(currency) <==>
              |currency| > 5 && currency[..5] == "tdoge"
    ensures Resolve(currency) != ExactResolve(currency) ==>
              Resolve(currency) == Some(Local(DogeTest)) && ExactResolve(currency) == None
  {
    ResolveMeaning(currency);
    if |currency| == 5 && currency[..5] == "tdoge" {
      assert currency == currency[..5];
    }
  }

  /** Three concrete cases: a code with a suffix after "tdoge" is
      accepted, a code with a suffix after "tltc" and one outside the list
      are refused. */
  lemma LookupExamples()
    ensures Resolve("tdogeX") == Some(Local(DogeTest))
    ensures Resolve("tltcX") == None
    ensures Resolve("xyz") == None
  {
    AcceptsAfterTdoge();
    RefusesAfterTltc();
    RefusesUnlisted();
  }

  lemma AcceptsAfterTdoge()
    ensures Resolve("tdogeX") == Some(Local(DogeTest))
  {
    StrNCmpEqMeaning("tdogeX", "tdoge", CompareBound);
    assert "tdogeX"[..5] == "tdoge"[..5];
  }

  lemma RefusesUnlisted()
    ensures Resolve("xyz") == None
  {
    ResolveMeaning("xyz");
  }

  lemma RefusesAfterTltc()
    ensures Resolve("tltcX") == None
  {
    ResolveMeaning("tltcX");
  }
}
