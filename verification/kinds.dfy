/** The three address forms the encoder produces for every key, and the
    choice of the one a run names its output after. */
module Kinds {

  /** `enum addr_type`. */
  datatype AddrKind = P2PKH | P2SH_P2WPKH | P2WPKH

  /** The three buffers `addresses_from_pubkey` fills. */
  datatype Addresses = Addresses(p2pkh: string, p2shP2wpkh: string, p2wpkh: string)

  /** The `switch (type)` that points `addr` at one of the three buffers:
      the one of the requested kind, and never a buffer of another kind. */
  function Select(kind: AddrKind, a: Addresses): (r: string)
    ensures r in {a.p2pkh, a.p2shP2wpkh, a.p2wpkh}
    ensures kind == P2PKH ==> r == a.p2pkh
    ensures kind == P2SH_P2WPKH ==> r == a.p2shP2wpkh
    ensures kind == P2WPKH ==> r == a.p2wpkh
  {
    match kind
    case P2PKH => a.p2pkh
    case P2SH_P2WPKH => a.p2shP2wpkh
    case P2WPKH => a.p2wpkh
  }

  /** When the three addresses differ, the selected one tells which kind
      was asked for. */
  lemma SelectDeterminesKind(k1: AddrKind, k2: AddrKind, a: Addresses)
    requires a.p2pkh != a.p2shP2wpkh && a.p2pkh != a.p2wpkh && a.p2shP2wpkh != a.p2wpkh
    ensures Select(k1, a) == Select(k2, a) <==> k1 == k2
  {
  }
}
