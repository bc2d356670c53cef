/** `generate_addresses` and `main` of tiltgap.c: resolve the currency,
    create the output directory and the summary file, then for each of
    `qty` keys write one JSON record and one summary line and wipe the key
    buffer. The file system is abstract (`Disk`); libbtc's key and address
    functions are parameters (`Crypto`). */
module Generator {
  import opened Wrappers
  import opened CStrings
  import opened Chains
  import opened Kinds
  import opened Options
  import opened Formatting
  import opened Json

  /** `privkeywiflen`: the capacity of the key buffer. */
  const KeyCapacity: nat := 128

  /** The libbtc calls of one iteration, as functions of their inputs.
      `genKey(chain, i)` is the WIF text `gen_privatekey` produces in
      iteration `i`, which stands for its random source;
      `pubkey_from_privatekey` and `addresses_from_pubkey` are
      deterministic in what they are given. */
  datatype Crypto = Crypto(
    genKey: (Chain, nat) -> string,
    pubkeyOf: (Chain, string) -> string,
    addressesOf: (Chain, string) -> Addresses)

  /** Every WIF text the generator hands back fits the buffer together
      with its terminator. */
  ghost predicate KeysFit(crypto: Crypto) {
    forall c: Chain, i: nat ::
      NoNul(crypto.genKey(c, i)) && |crypto.genKey(c, i)| < KeyCapacity
  }

  /** The fixed inputs of a run's loop. */
  datatype Job = Job(chain: Chain, kind: AddrKind, currency: string, outDir: string)

  /** One generated identity: the key text, its public key, the three addresses. */
  datatype Identity = Identity(wif: string, pubkeyHex: string, addrs: Addresses)

  function IdentityAt(crypto: Crypto, chain: Chain, i: nat): Identity {
    var wif := crypto.genKey(chain, i);
    var pub := crypto.pubkeyOf(chain, wif);
    Identity(wif, pub, crypto.addressesOf(chain, pub))
  }

  /** The address iteration `i` names its output after. */
  function AddressAt(job: Job, crypto: Crypto, i: nat): string {
    Select(job.kind, IdentityAt(crypto, job.chain, i).addrs)
  }

  /** A file as it stands after `fopen(path, "w")`, writes and `fclose`. */
  datatype FileWrite = FileWrite(path: string, content: string)

  /** The record file iteration `i` writes. */
  function RecordAt(job: Job, crypto: Crypto, i: nat): FileWrite {
    var addr := AddressAt(job, crypto, i);
    FileWrite(JsonPath(job.outDir, job.currency, addr),
              JsonRecord(job.currency, addr, IdentityAt(crypto, job.chain, i).wif))
  }

  /** The record files of the first `n` iterations, in order. */
  function Records(job: Job, crypto: Crypto, n: nat): (r: seq<FileWrite>)
    ensures |r| == n
  {
    if n == 0 then [] else Records(job, crypto, n - 1) + [RecordAt(job, crypto, n - 1)]
  }

  /** The summary lines of the first `n` iterations, in order. */
  function SummaryLines(job: Job, crypto: Crypto, n: nat): (r: seq<string>)
    ensures |r| == n
  {
    if n == 0 then []
    else SummaryLines(job, crypto, n - 1) + [CsvLine(job.currency, AddressAt(job, crypto, n - 1))]
  }

  /** The text of the summary file: its `fprintf` writes one after another. */
  function Joined(lines: seq<string>): string {
    if lines == [] then [] else Joined(lines[..|lines| - 1]) + lines[|lines| - 1]
  }

  /** The summary file has exactly one line per iteration when neither the
      currency nor any address holds a newline. A newline in the currency
      (which the lookup lets through after "tdoge") gives every iteration at
      least two lines. */
  lemma {:induction false} SummaryFileLines(job: Job, crypto: Crypto, n: nat)
    ensures ('\n' !in job.currency && forall i :: 0 <= i < n ==> '\n' !in AddressAt(job, crypto, i)) ==>
              Newlines(Joined(SummaryLines(job, crypto, n))) == n
    ensures '\n' in job.currency ==> Newlines(Joined(SummaryLines(job, crypto, n))) >= 2 * n
  {
    if n > 0 {
      SummaryFileLines(job, crypto, n - 1);
      var lines := SummaryLines(job, crypto, n);
      var addr := AddressAt(job, crypto, n - 1);
      assert lines[..n - 1] == SummaryLines(job, crypto, n - 1);
      NewlinesConcat(Joined(lines[..n - 1]), CsvLine(job.currency, addr));
      CsvLineNewlines(job.currency, addr);
      NewlinesZero(job.currency);
      NewlinesZero(addr);
    }
  }

  /** How often `for (int i = 0; i < qty; i++)` runs. */
  function Iterations(qty: int): nat {
    if qty < 0 then 0 else qty
  }

  /** After `n` iterations there are exactly `n` records and `n` summary
      lines, the `i`-th of each from iteration `i`. */
  lemma {:induction false} BatchAt(job: Job, crypto: Crypto, n: nat)
    ensures forall i :: 0 <= i < n ==>
              Records(job, crypto, n)[i] == RecordAt(job, crypto, i) &&
              SummaryLines(job, crypto, n)[i] == CsvLine(job.currency, AddressAt(job, crypto, i))
  {
    if n > 0 {
      BatchAt(job, crypto, n - 1);
    }
  }

  /** Record `i` and summary line `i` name the same address: the record
      lies in the output directory under `<currency>.<address>.json` (up to
      truncation), and both read back as the currency and that address,
      the record with the key of iteration `i`. */
  lemma RecordMatchesSummary(job: Job, crypto: Crypto, n: nat, i: nat)
    requires i < n
    requires '"' !in job.currency && ',' !in job.currency
    requires '"' !in AddressAt(job, crypto, i)
    requires |job.outDir| <= 254
    ensures var rec := Records(job, crypto, n)[i];
            var addr := AddressAt(job, crypto, i);
            rec.path == JsonPath(job.outDir, job.currency, addr) &&
            rec.path[..|job.outDir| + 1] == job.outDir + "/" &&
            (|job.outDir| + |job.currency| + |addr| <= 503 ==>
               rec.path == job.outDir + "/" + job.currency + "." + addr + ".json") &&
            ParseRecord(rec.content) ==
              Some(RecordFields(job.currency, addr, IdentityAt(crypto, job.chain, i).wif)) &&
            (Unescaped(job.currency) && Unescaped(addr) &&
             Unescaped(IdentityAt(crypto, job.chain, i).wif) ==>
               ParseJsonRecord(rec.content) ==
                 Some(RecordFields(job.currency, addr, IdentityAt(crypto, job.chain, i).wif))) &&
            ParseCsvLine(SummaryLines(job, crypto, n)[i]) == Some((job.currency, addr))
  {
    BatchAt(job, crypto, n);
    var addr := AddressAt(job, crypto, i);
    RecordRoundTrip(job.currency, addr, IdentityAt(crypto, job.chain, i).wif);
    JsonRecordRoundTrip(job.currency, addr, IdentityAt(crypto, job.chain, i).wif);
    CsvRoundTrip(job.currency, addr);
  }

  /** The lookup accepts currencies long enough that the summary file gets
      the directory's name: a C string that starts with "tdoge" and makes
      `tiltgap-<currency>-<ts>` reach 254 characters (from 244 characters on
      for any timestamp, from 235 for a ten-digit one). The program then
      opens its own output directory for writing. */
  lemma LongCurrencyReusesDirName(currency: string, ts: int)
    requires NoNul(currency) && |currency| >= 5 && currency[..5] == "tdoge"
    requires |DirText(currency, ts)| >= 254
    ensures Resolve(currency) == Some(Local(DogeTest))
    ensures CsvName(currency, ts) == DirName(currency, ts)
  {
    ResolveMeaning(currency);
    SummaryNameIsDirName(currency, ts);
  }

  /** The file system as the run sees it: directories made, record files
      written, and the summary stream. */
  class Disk {
    var dirs: seq<string>
    var records: seq<FileWrite>
    var summaryPath: string
    var summaryLines: seq<string>
    var summaryOpen: bool

    constructor ()
      ensures dirs == [] && records == [] && summaryPath == "" && summaryLines == [] && !summaryOpen
    {
      dirs, records, summaryPath, summaryLines, summaryOpen := [], [], "", [], false;
    }

    /** `mkdir(path, 0700)`. */
    method Mkdir(path: string)
      modifies this`dirs
      ensures dirs == old(dirs) + [path]
    {
      dirs := dirs + [path];
    }

    /** `fopen(path, "w")` of the summary: the file starts empty. */
    method OpenSummary(path: string)
      modifies this`summaryPath, this`summaryLines, this`summaryOpen
      ensures summaryPath == path && summaryLines == [] && summaryOpen
    {
      summaryPath, summaryLines, summaryOpen := path, [], true;
    }

    /** `fprintf(ft, ...)` of one line. */
    method AppendSummary(line: string)
      requires summaryOpen
      modifies this`summaryLines
      ensures summaryLines == old(summaryLines) + [line]
    {
      summaryLines := summaryLines + [line];
    }

    /** `fclose(ft)`. */
    method CloseSummary()
      modifies this`summaryOpen
      ensures !summaryOpen
    {
      summaryOpen := false;
    }

    /** `fopen(path, "w")`, one `fprintf` and `fclose` of a record file. */
    method WriteFile(path: string, content: string)
      modifies this`records
      ensures records == old(records) + [FileWrite(path, content)]
    {
      records := records + [FileWrite(path, content)];
    }
  }

  /** What a run that resolved its currency leaves on the disk: the output
      directory made, one record per iteration added in order, and the
      summary file closed with one line per iteration. */
  twostate predicate RanBatch(disk: Disk, job: Job, crypto: Crypto, n: nat, csv: string)
    reads disk
  {
    disk.dirs == old(disk.dirs) + [job.outDir] &&
    disk.records == old(disk.records) + Records(job, crypto, n) &&
    disk.summaryPath == csv &&
    disk.summaryLines == SummaryLines(job, crypto, n) &&
    !disk.summaryOpen
  }

  /** The key buffer holds no character of any key: each position is NUL
      or what it held before the run. */
  twostate predicate NoKeyLeft(buf: array<char>)
    reads buf
  {
    forall p :: 0 <= p < buf.Length ==> buf[p] == NUL || buf[p] == old(buf[p])
  }

  /** The key buffer as `memset(buf, 0, strlen(buf))` leaves it after keys
      whose terminators reach at most index `k`: NUL up to and including
      `k`, and what it held before the run beyond. */
  twostate predicate WipedThrough(buf: array<char>, k: int)
    reads buf
  {
    buf[..] == Wiped(old(buf[..]), k)
  }

  /** Two wipes clear as far as the longer of the two. */
  lemma WipedTwice(s: seq<char>, k: int, m: int)
    ensures Wiped(Wiped(s, k), m) == Wiped(s, if m > k then m else k)
  {
  }

  /** The index of the terminator of the longest key of the first `n`
      iterations, -1 when there is none. */
  function LongestKey(crypto: Crypto, chain: Chain, n: nat): int {
    if n == 0 then -1
    else
      var k := |crypto.genKey(chain, n - 1)|;
      var before := LongestKey(crypto, chain, n - 1);
      if k > before then k else before
  }

  /** `LongestKey` is the length of the longest of the first `n` keys: no
      key is longer and one of them has that length. Since every key fits
      the buffer with its terminator, that terminator's index lies inside
      the 128 characters. */
  lemma {:induction false} LongestKeyMeaning(crypto: Crypto, chain: Chain, n: nat)
    ensures forall i :: 0 <= i < n ==> |crypto.genKey(chain, i)| <= LongestKey(crypto, chain, n)
    ensures n > 0 ==> exists i :: 0 <= i < n && LongestKey(crypto, chain, n) == |crypto.genKey(chain, i)|
    ensures KeysFit(crypto) ==> LongestKey(crypto, chain, n) < KeyCapacity
  {
    if n > 0 {
      LongestKeyMeaning(crypto, chain, n - 1);
      if LongestKey(crypto, chain, n) == |crypto.genKey(chain, n - 1)| {
      } else {
        var i :| 0 <= i < n - 1 && LongestKey(crypto, chain, n - 1) == |crypto.genKey(chain, i)|;
      }
    }
  }

  /** One pass of the loop body: generate a key into the buffer, derive
      its addresses, write the record and the summary line, wipe the key.
      Afterwards no character of the new key is left in the buffer. */
  method GenerateOne(chain: Chain, kind: AddrKind, currency: string, outDir: string, i: nat,
                     crypto: Crypto, disk: Disk, privkeywif: array<char>)
    requires privkeywif.Length == KeyCapacity && KeysFit(crypto)
    requires disk.summaryOpen
    modifies disk, privkeywif
    ensures disk.records == old(disk.records) + [RecordAt(Job(chain, kind, currency, outDir), crypto, i)]
    ensures disk.summaryLines ==
              old(disk.summaryLines) + [CsvLine(currency, AddressAt(Job(chain, kind, currency, outDir), crypto, i))]
    ensures disk.dirs == old(disk.dirs) && disk.summaryPath == old(disk.summaryPath) && disk.summaryOpen
    ensures WipedThrough(privkeywif, |crypto.genKey(chain, i)|)
    ensures NoKeyLeft(privkeywif)
  {
    // gen_privatekey fills the buffer; the rest of the iteration reads it
    // back as a C string.
    var key := crypto.genKey(chain, i);
    ghost var unwiped := privkeywif[..];
    PutCString(privkeywif, key);
    var len := Strlen(privkeywif);
    assert len == FirstNul(privkeywif[..]) == |key|;
    ghost var filled := privkeywif[..];
    var wif := privkeywif[..len];
    var pubkeyhex := crypto.pubkeyOf(chain, wif);
    var addr := Select(kind, crypto.addressesOf(chain, pubkeyhex));
    disk.WriteFile(JsonPath(outDir, currency, addr), JsonRecord(currency, addr, wif));
    disk.AppendSummary(CsvLine(currency, addr));
    Wipe(privkeywif);
    assert Wiped(filled, |key|) == Wiped(unwiped, |key|);
  }

  /** `for (int i = 0; i < qty; i++)` with the summary open: appends the
      records and the summary lines of `max(qty, 0)` iterations. */
  method GenerateLoop(chain: Chain, kind: AddrKind, currency: string, outDir: string, qty: int,
                      crypto: Crypto, disk: Disk, privkeywif: array<char>)
    requires privkeywif.Length == KeyCapacity && KeysFit(crypto)
    requires disk.summaryOpen && disk.summaryLines == []
    modifies disk, privkeywif
    ensures disk.records == old(disk.records) + Records(Job(chain, kind, currency, outDir), crypto, Iterations(qty))
    ensures disk.summaryLines == SummaryLines(Job(chain, kind, currency, outDir), crypto, Iterations(qty))
    ensures disk.dirs == old(disk.dirs) && disk.summaryPath == old(disk.summaryPath) && disk.summaryOpen
    ensures WipedThrough(privkeywif, LongestKey(crypto, chain, Iterations(qty)))
    ensures NoKeyLeft(privkeywif)
  {
    ghost var job := Job(chain, kind, currency, outDir);
    ghost var unwiped := privkeywif[..];
    var i := 0;
    while i < qty
      invariant 0 <= i <= Iterations(qty)
      invariant disk.dirs == old(disk.dirs) && disk.summaryPath == old(disk.summaryPath)
      invariant disk.records == old(disk.records) + Records(job, crypto, i)
      invariant disk.summaryOpen && disk.summaryLines == SummaryLines(job, crypto, i)
      invariant privkeywif[..] == Wiped(unwiped, LongestKey(crypto, chain, i))
    {
      ghost var before := disk.records;
      GenerateOne(chain, kind, currency, outDir, i, crypto, disk, privkeywif);
      WipedTwice(unwiped, LongestKey(crypto, chain, i), |crypto.genKey(chain, i)|);
      assert disk.records == before + [RecordAt(job, crypto, i)];
      assert Records(job, crypto, i + 1) == Records(job, crypto, i) + [RecordAt(job, crypto, i)];
      i := i + 1;
    }
  }

  /** `generate_addresses(type, currency, qty)`. An unsupported currency
      returns 1 before anything is created; otherwise the directory and the
      summary are created and the loop runs `max(qty, 0)` times. The key
      buffer, uninitialised in the program, is passed in; the currency is a
      command-line argument and so holds no NUL. */
  method GenerateAddresses(kind: AddrKind, currency: string, qty: int, ts: int,
                           crypto: Crypto, disk: Disk, privkeywif: array<char>)
    returns (status: int)
    requires NoNul(currency)
    requires privkeywif.Length == KeyCapacity && KeysFit(crypto)
    modifies disk, privkeywif
    ensures Resolve(currency).None? ==> status == 1 && unchanged(disk) && unchanged(privkeywif)
    ensures Resolve(currency).Some? ==>
              status == 0 &&
              RanBatch(disk, Job(Resolve(currency).value, kind, currency, DirName(currency, ts)),
                       crypto, Iterations(qty), CsvName(currency, ts)) &&
              WipedThrough(privkeywif, LongestKey(crypto, Resolve(currency).value, Iterations(qty)))
    ensures NoKeyLeft(privkeywif)
  {
    var ccp := LookupChain(currency);
    if ccp.None? {
      return 1;
    }
    var chain := ccp.value;
    var outDir := DirName(currency, ts);
    disk.Mkdir(outDir);
    var outTxt := CsvName(currency, ts);
    disk.OpenSummary(outTxt);
    GenerateLoop(chain, kind, currency, outDir, qty, crypto, disk, privkeywif);
    disk.CloseSummary();
    return 0;
  }

  /** `main`: the option loop, the operand check, then `generate_addresses`
      with the first operand as currency and `strtol` of the second as
      quantity. */
  method Tiltgap(opts: seq<char>, operands: seq<string>, strtol: string -> int, ts: int,
                 crypto: Crypto, disk: Disk, privkeywif: array<char>)
    returns (status: int)
    requires forall k :: 0 <= k < |operands| ==> NoNul(operands[k])
    requires privkeywif.Length == KeyCapacity && KeysFit(crypto)
    modifies disk, privkeywif
    ensures !Dispatch(opts, operands).Generate? ==>
              status == EarlyExit(Dispatch(opts, operands)) &&
              unchanged(disk) && unchanged(privkeywif)
    ensures Dispatch(opts, operands).Generate? ==>
              var cmd := Dispatch(opts, operands);
              (Resolve(cmd.currency).None? ==> status == 1 && unchanged(disk) && unchanged(privkeywif)) &&
              (Resolve(cmd.currency).Some? ==>
                 status == 0 &&
                 RanBatch(disk, Job(Resolve(cmd.currency).value, cmd.kind, cmd.currency,
                                    DirName(cmd.currency, ts)),
                          crypto, Iterations(strtol(cmd.quantity)), CsvName(cmd.currency, ts)) &&
                 WipedThrough(privkeywif, LongestKey(crypto, Resolve(cmd.currency).value,
                                                     Iterations(strtol(cmd.quantity)))))
    ensures NoKeyLeft(privkeywif)
  {
    var r := ParseOptions(opts);
    if r.Help? {
      return 0;
    }
    if |operands| < 2 {
      return 1;
    }
    var qty := strtol(operands[1]);
    status := GenerateAddresses(r.kind, operands[0], qty, ts, crypto, disk, privkeywif);
  }
}
