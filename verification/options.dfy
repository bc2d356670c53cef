/** The command line of tiltgap.c: the `getopt` loop over "hpsb" that
    chooses the address kind, and the check for the two operands. */
module Options {
  import opened Kinds

  /** How the option loop ends: `-h` returns at once, otherwise with the
      address kind chosen. */
  datatype OptResult = Help | Selected(kind: AddrKind)

  /** The option loop continued from `kind` over the remaining option
      characters (as `getopt` returns them, '?' for an unknown one). */
  function FoldOptions(kind: AddrKind, opts: seq<char>): (r: OptResult)
    ensures r == Help ==> 'h' in opts
    decreases |opts|
  {
    if opts == [] then Selected(kind)
    else if opts[0] == 'h' then Help
    else if opts[0] == 'p' then FoldOptions(P2PKH, opts[1..])
    else if opts[0] == 's' then FoldOptions(P2SH_P2WPKH, opts[1..])
    else if opts[0] == 'b' then FoldOptions(P2WPKH, opts[1..])
    else FoldOptions(kind, opts[1..])
  }

  /** The kind an option character selects, if it selects one. */
  function KindOf(c: char, otherwise: AddrKind): AddrKind {
    if c == 'p' then P2PKH
    else if c == 's' then P2SH_P2WPKH
    else if c == 'b' then P2WPKH
    else otherwise
  }

  /** Reference definition read from the end: the kind of the last of
      `p`, `s`, `b`, or `dflt` when none of them occurs. */
  function LastKind(opts: seq<char>, dflt: AddrKind): AddrKind {
    if opts == [] then dflt
    else
      var c := opts[|opts| - 1];
      if c == 'p' || c == 's' || c == 'b' then KindOf(c, dflt)
      else LastKind(opts[..|opts| - 1], dflt)
  }

  /** Reading one more character at the front only changes the default. */
  lemma {:induction false} LastKindCons(c: char, rest: seq<char>, dflt: AddrKind)
    ensures LastKind([c] + rest, dflt) == LastKind(rest, KindOf(c, dflt))
    decreases |rest|
  {
    if rest == [] {
    } else {
      var front := rest[..|rest| - 1];
      assert ([c] + rest)[..|rest|] == [c] + front;
      LastKindCons(c, front, dflt);
    }
  }

  /** Without `-h` the loop ends with the kind of the last of `-p`, `-s`,
      `-b`, and with the starting kind when none is given. */
  lemma {:induction false} FoldIsLastKind(kind: AddrKind, opts: seq<char>)
    requires 'h' !in opts
    ensures FoldOptions(kind, opts) == Selected(LastKind(opts, kind))
    decreases |opts|
  {
    if opts != [] {
      assert opts == [opts[0]] + opts[1..];
      LastKindCons(opts[0], opts[1..], kind);
      FoldIsLastKind(KindOf(opts[0], kind), opts[1..]);
    }
  }

  /** `-h` anywhere ends the loop with help, whatever follows it; nothing
      else does. */
  lemma {:induction false} FoldHelp(kind: AddrKind, opts: seq<char>)
    ensures FoldOptions(kind, opts) == Help <==> 'h' in opts
    decreases |opts|
  {
    if opts != [] && opts[0] != 'h' {
      FoldHelp(KindOf(opts[0], kind), opts[1..]);
      assert 'h' in opts <==> 'h' in opts[1..] by {
        assert opts == [opts[0]] + opts[1..];
      }
    }
  }

  /** The `while ((opt = getopt(...)) != -1)` loop of `main`, starting from
      P2PKH. */
  method ParseOptions(opts: seq<char>) returns (r: OptResult)
    ensures r == FoldOptions(P2PKH, opts)
  {
    var kind := P2PKH;
    var i := 0;
    while i < |opts|
      invariant 0 <= i <= |opts|
      invariant FoldOptions(kind, opts[i..]) == FoldOptions(P2PKH, opts)
    {
      var opt := opts[i];
      assert opts[i..][1..] == opts[i + 1..];
      if opt == 'h' {
        return Help;
      } else if opt == 'p' {
        kind := P2PKH;
      } else if opt == 's' {
        kind := P2SH_P2WPKH;
      } else if opt == 'b' {
        kind := P2WPKH;
      }
      i := i + 1;
    }
    r := Selected(kind);
  }

  /** What `main` goes on to do. */
  datatype Command =
    | ShowHelp                      // usage, exit status 0
    | ShowUsage                     // usage, exit status 1
    | Generate(kind: AddrKind, currency: string, quantity: string)

  /** `main` after its option loop: help wins, then fewer than two operands
      is a usage error, otherwise the first two operands are the currency
      and the quantity text. */
  function Dispatch(opts: seq<char>, operands: seq<string>): (c: Command)
    ensures c == ShowHelp <==> 'h' in opts
    ensures c == ShowUsage <==> 'h' !in opts && |operands| < 2
    ensures c.Generate? ==> c.kind == LastKind(opts, P2PKH) &&
                            c.currency == operands[0] && c.quantity == operands[1]
  {
    FoldHelp(P2PKH, opts);
    match FoldOptions(P2PKH, opts)
    case Help => ShowHelp
    case Selected(kind) =>
      FoldIsLastKind(P2PKH, opts);
      if |operands| < 2 then ShowUsage else Generate(kind, operands[0], operands[1])
  }

  /** The exit status `main` returns without generating anything. */
  function EarlyExit(c: Command): (status: int)
    requires !c.Generate?
    ensures status == 0 <==> c == ShowHelp
    ensures c == ShowUsage ==> status == 1
  {
    if c == ShowHelp then 0 else 1
  }
}
