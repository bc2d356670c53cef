# TiltGap bulk address generator — a Dafny model

TiltGap (`tiltgap.c`) generates batches of cryptocurrency keys and
addresses offline. Its command line is `tiltgap [-hpsb] <currency> <quantity>`.
The program picks the chain parameters for the currency: Bitcoin, Litecoin
or Dogecoin, on the main or the test network. It then creates a directory
`tiltgap-<currency>-<unix time>` and, beside it, a summary file with the
same name plus `.csv`. For each key it writes one JSON record file in the
directory and one `currency,address` line in the summary. After that it
clears the text of the private key from its key buffer.

This project models that glue code and proves its properties:

- `cstrings.dfy` (`CStrings`): C strings. `strncmp` as a function, with
  `StrNCmpEqMeaning` stating what a bounded comparison decides. `strlen`
  (`Strlen`) and the key wipe (`Wipe`, i.e.
  `memset(privkeywif, 0, strlen(privkeywif))`) are methods over an
  `array<char>`. `PutCString` is the buffer as the key generator leaves it.
- `chains.dfy` (`Chains`): the four chain-parameter tables the program
  defines, and the currency lookup. `Resolve` is the lookup as a function;
  `LookupChain` is the six `ccp` reassignments as the program runs them.
- `kinds.dfy` (`Kinds`): the three address kinds and the `switch` that
  picks the address a run names its output after.
- `options.dfy` (`Options`): the `getopt` loop of `main` as a method
  (`ParseOptions`) against a fold (`FoldOptions`), a reference definition
  (`LastKind`), and the operand check (`Dispatch`).
- `formatting.dfy` (`Formatting`): `snprintf` truncation, the `%li`
  timestamp, the three paths, the JSON record and the CSV line. Three of
  these have a reader with a round-trip lemma: the timestamp (`ParseLong`),
  the record (`ParseRecord`, and `Json.ParseJsonRecord`) and the CSV line
  (`ParseCsvLine`). The paths are characterised by their contracts and by
  lemmas about truncation instead.
- `json.dfy` (`Json`): a decoder for JSON strings (section 7 of RFC 8259)
  and the record read as a JSON object with it.
- `generator.dfy` (`Generator`): `generate_addresses` and `main`. The file
  system is a `Disk` object: directories made, record files written, the
  summary stream. The libbtc calls are a `Crypto` value of three functions.
  The loop is proved against `Records` and `SummaryLines`, which give the
  records and summary lines of the first `n` iterations. `WipedThrough`
  gives the exact key buffer afterwards, and `NoKeyLeft` says that no
  character of any generated key survives in it.

Behaviour of the code that the model keeps as written:

- The usage text (tiltgap.c:128) lists six currency codes, but each
  comparison is `strncmp(currency, code, 5)` (tiltgap.c:144-149). This bound
  reaches the terminator of every code except the five-letter `tdoge`. So
  any argument that starts with `tdoge` (`tdogeX`, `tdoge"`, `tdoge\`)
  selects the Dogecoin test table. `ResolveMeaning` and `ResolveVersusExact`
  state this exactly. Such a currency then appears unescaped in every path
  and record. `JsonRecordRoundTrip` proves, against a JSON string decoder,
  that the record is the JSON object of the values written exactly when
  none of them holds a quote, a backslash or a control character.
  `SummaryFileLines` shows that a newline in the currency gives every
  iteration at least two lines of the summary file. `LongCurrencyReusesDirName`
  shows that a currency that makes `tiltgap-<currency>-<ts>` reach 254
  characters (from 244 characters for any timestamp, from 235 for a
  ten-digit one) gives the summary file the directory's own name.
- The wipe `memset(privkeywif, 0, strlen(privkeywif))` (tiltgap.c:207)
  clears only up to the first NUL, not the 128-character capacity, and
  `Wipe` models exactly that. Because every key is wiped in the iteration
  that wrote it, no key character is left (`NoKeyLeft`). After the batch
  the buffer is NUL up to and including the terminator of the longest key
  (`LongestKey`), and every character past it keeps whatever the
  uninitialised buffer held (`WipedThrough`).
- The Dogecoin tables carry the Bech32 prefixes `doge` and `tdoge`
  (tiltgap.c:67-93), and the option loop has no guard against choosing
  Bech32 (`-b`) for Dogecoin. The model has no such guard either.
- The program checks the result of neither the key derivation nor
  `mkdir`, `fopen` or `fprintf`, and the model has no failure paths for them.

## Model

| member | source | states |
|---|---|---|
| `CStrings.StrNCmpEq` | tiltgap.c:144-149 | `strncmp(s, t, n) == 0` holds whenever the first `n` characters agree, reading past the end as the terminator; for C strings it holds only then |
| `CStrings.StrNCmpEqMeaning` | tiltgap.c:144-149 | for C strings, `strncmp(s, t, n) == 0` holds exactly when `s == t` if `t` is shorter than `n`, and when the first `n` characters agree otherwise |
| `CStrings.FirstNul` | tiltgap.c:207 | the length `strlen` reports: a NUL at that index and none before it |
| `CStrings.CStr` | tiltgap.c:199-201 | the C string a buffer holds: a NUL-free prefix followed by the terminator |
| `CStrings.Strlen` | tiltgap.c:207 | scanning the key buffer stops at its first NUL, which it returns |
| `CStrings.Wipe` | tiltgap.c:207 | every character before the original first NUL is NUL afterwards; that NUL and everything after it, up to the capacity, is unchanged; the buffer then holds the empty string and is the old buffer NUL through its first NUL |
| `CStrings.PutCString` | tiltgap.c:182 | the key text and its terminator are at the front of the buffer, the rest is unchanged, and the buffer reads back as the key text |
| `Chains.Table` | tiltgap.c:39-93 | each of the four local tables has net magic, genesis hash, port and DNS seeds all zero |
| `Chains.DogeExtendedKeysShared` | tiltgap.c:67-93 | both Dogecoin tables carry extended-key magic 0x02fac398 / 0x02facafd, and neither Litecoin table carries either value |
| `Chains.PrefixesIdentifyNetwork` | tiltgap.c:39-93 | the P2PKH, P2SH and WIF version bytes each tell the four local networks apart |
| `Chains.Resolve` | tiltgap.c:142-154 | a selected table is named by one of the six listed codes and that code matches the argument under the 5-character comparison; the argument is unsupported exactly when no listed code matches |
| `Chains.LookupChain` | tiltgap.c:142-149 | the six sequential reassignments of `ccp` end with `Resolve(currency)`, the last code that matches |
| `Chains.ResolveMeaning` | tiltgap.c:144-154 | for every C string: `btc`, `tbtc`, `ltc`, `tltc`, `doge` select their tables only when given exactly; any string starting with `tdoge` selects the Dogecoin test table; everything else is unsupported |
| `Chains.ExactResolve` | tiltgap.c:128 | the exact-match lookup that the usage text's list describes accepts just the six listed codes |
| `Chains.ResolveVersusExact` | tiltgap.c:144-149 | the bounded lookup differs from the exact one exactly on strings longer than five characters that start with `tdoge`, which it sends to the Dogecoin test table where the exact lookup refuses |
| `Chains.LookupExamples` | tiltgap.c:144-154 | `tdogeX` selects Dogecoin test; `tltcX` and `xyz` are unsupported |
| `Kinds.Select` | tiltgap.c:189-193 | the address chosen is the P2PKH, P2SH-P2WPKH or P2WPKH one for the corresponding kind, and never one of the other two buffers |
| `Kinds.SelectDeterminesKind` | tiltgap.c:189-193 | when the three addresses differ, two kinds select the same address only if they are the same kind |
| `Options.ParseOptions` | tiltgap.c:100-110 | the option loop, starting from P2PKH, ends with the fold of the option characters |
| `Options.FoldOptions` | tiltgap.c:101-110 | the option loop ends with help only when `-h` is among the options |
| `Options.FoldIsLastKind` | tiltgap.c:101-110 | without `-h`, the chosen kind is the kind of the last `-p`, `-s` or `-b`, or the starting kind when none appears; other characters change nothing |
| `Options.FoldHelp` | tiltgap.c:103-105 | the loop ends with help exactly when `-h` appears, whatever follows it |
| `Options.Dispatch` | tiltgap.c:103-118 | help wins; without it, fewer than two operands is the usage error; otherwise generation with the last-chosen kind, the first operand as currency and the second as quantity |
| `Options.EarlyExit` | tiltgap.c:105-115 | help exits with 0, the usage error with 1 |
| `Formatting.Snprintf` | tiltgap.c:168 | the result is the longest prefix of the formatted text that leaves room for the terminator |
| `Formatting.FormatLong` | tiltgap.c:168 | `%li` text is non-empty, starts with `-` exactly for negative numbers, and is otherwise decimal digits with no leading zero |
| `Formatting.FormatLongRoundTrip` | tiltgap.c:168 | the `%li` text of any number reads back as that number |
| `Formatting.LongLength` | tiltgap.c:162-168 | a 64-bit timestamp prints in at most 20 characters |
| `Formatting.DirName` | tiltgap.c:168 | the directory name is at most 254 characters, a prefix of `tiltgap-<currency>-<ts>`, and all of it when that fits |
| `Formatting.CsvName` | tiltgap.c:173 | the summary name is at most 254 characters, a prefix of `tiltgap-<currency>-<ts>.csv`, and all of it when that fits |
| `Formatting.JsonPath` | tiltgap.c:195 | a record path is at most 510 characters, a prefix of `<dir>/<currency>.<addr>.json`, keeps the directory and its slash, and is the whole `<dir>/<currency>.<addr>.json` when that fits |
| `Formatting.RecordPathNotTruncated` | tiltgap.c:168-195 | a directory name as `snprintf(out_dir, 255, ...)` leaves it, with currency and address of up to 249 characters together, gives exactly `<dir>/<currency>.<addr>.json` |
| `Formatting.LongPrefixSharesRecordPath` | tiltgap.c:195 | once `<dir>/<currency>.` fills 510 characters, every address gets the same record path |
| `Formatting.SummaryNameIsDirName` | tiltgap.c:168-173 | when `tiltgap-<currency>-<ts>` reaches 254 characters, the summary file name equals the directory name |
| `Formatting.NamesNotTruncated` | tiltgap.c:162-173 | for currencies up to 221 characters and 64-bit timestamps nothing is truncated, and the summary file is the directory name plus `.csv`, beside the directory and not inside it |
| `Formatting.DirNamesDiffer` | tiltgap.c:162-168 | untruncated runs at different timestamps use different directories |
| `Formatting.RecordLayout` | tiltgap.c:199-201 | the record is the three values in 43 characters of fixed framing: `{"currency":"` and the currency first, the address between the inner separators, the key and `"}` last |
| `Formatting.RecordRoundTrip` | tiltgap.c:199-201 | the reader `ParseRecord`, which only splits at double quotes and is not a JSON reader, gets C, A and W back from `{"currency":"C","address":"A","plain_wif":"W"}` when C and A hold no double quote, so also when they hold backslashes or control characters, which the JSON reader refuses |
| `Json.DecodeShape` | tiltgap.c:199-201 | a JSON string decodes from a suffix of its raw text, to at most as many characters, and to the raw text itself exactly when it holds no escape |
| `Json.FieldDecodesExactly` | tiltgap.c:199-201 | a field written before `"` and a member separator or the closing `}` decodes back to itself only if it needs no escape, and then the decoder stops at that quote |
| `Json.JsonRecordRoundTrip` | tiltgap.c:199-201 | read as JSON, the record is the object of C, A and W exactly when none of the three holds a quote, a backslash or a control character |
| `Formatting.QuotedCurrencyBreaksRecord` | tiltgap.c:199-201 | with no escaping, a currency that holds a double quote gives a record that does not read back as written |
| `Formatting.CsvLineLayout` | tiltgap.c:205 | the summary line is the currency, a comma, the address and a newline, nothing else |
| `Formatting.CsvRoundTrip` | tiltgap.c:205 | `currency,address` plus newline reads back as the pair when the currency holds no comma |
| `Generator.Records` | tiltgap.c:178-203 | `n` iterations make exactly `n` record writes |
| `Generator.SummaryLines` | tiltgap.c:178-205 | `n` iterations print exactly `n` summary lines |
| `Generator.BatchAt` | tiltgap.c:178-209 | the `i`-th record file and the `i`-th summary line come from iteration `i`, in iteration order |
| `Generator.RecordMatchesSummary` | tiltgap.c:189-205 | record `i` lies in the output directory, its path is exactly `<dir>/<currency>.<addr>.json` for the address that summary line `i` carries when that fits in 510 characters, and it reads back as the currency, that address and key `i` (as a JSON object when none needs an escape) |
| `Generator.LongCurrencyReusesDirName` | tiltgap.c:144-173 | a C string starting with `tdoge` that makes `tiltgap-<currency>-<ts>` reach 254 characters is accepted as Dogecoin test, and its summary file then has the directory's name |
| `Generator.SummaryFileLines` | tiltgap.c:178-205 | the summary file has exactly `n` lines when neither the currency nor any address holds a newline, and at least `2n` when the currency does |
| `Generator.Disk.Mkdir` | tiltgap.c:171 | `mkdir` adds the directory to those made and changes nothing else |
| `Generator.Disk.OpenSummary` | tiltgap.c:174 | `fopen(out_txt, "w")` opens the summary under its name, empty |
| `Generator.Disk.AppendSummary` | tiltgap.c:205 | one `fprintf` on the open summary appends exactly its line |
| `Generator.Disk.CloseSummary` | tiltgap.c:211 | `fclose(ft)` closes the summary |
| `Generator.Disk.WriteFile` | tiltgap.c:197-203 | `fopen`, `fprintf` and `fclose` of a record add exactly that path and content to the record writes |
| `Generator.LongestKeyMeaning` | tiltgap.c:178-207 | the index `LongestKey` that the wipes reach is the length of the longest of the first `n` keys (no key is longer, one has that length), and it lies inside the 128-character buffer |
| `Generator.GenerateOne` | tiltgap.c:180-207 | one iteration adds exactly its record and its summary line, changes nothing else on the disk, and leaves the buffer NUL up to and including its key's terminator and unchanged beyond, so no character of its key is left |
| `Generator.GenerateLoop` | tiltgap.c:178-209 | with the summary open and empty, the loop appends the records of the first `max(qty, 0)` iterations in order, leaves their lines in the summary, changes nothing else on the disk, and leaves the buffer NUL up to and including the longest key's terminator and unchanged beyond, so no key character is left |
| `Generator.GenerateAddresses` | tiltgap.c:132-217 | an unsupported currency returns 1 with nothing created and the buffer untouched; otherwise the result is 0, the directory is made, `max(qty, 0)` records are appended in order, the summary holds the matching lines and is closed, and the buffer is NUL up to and including the longest key's terminator and unchanged beyond |
| `Generator.Tiltgap` | tiltgap.c:98-118 | help returns 0 and the usage error 1, both with nothing created and the buffer untouched; otherwise the run is `generate_addresses` with the dispatched kind, the currency, and `strtol` of the quantity, with its exact disk and buffer state |

## Left out

- The libbtc calls `gen_privatekey`, `pubkey_from_privatekey` and `addresses_from_pubkey` are foreign crypto code (secp256k1 keys, WIF, Base58Check, Bech32). They are the three functions of a `Crypto` value.
- `btc_ecc_start` (tiltgap.c:140) initialises libbtc's elliptic-curve context and is not modelled: it changes no state the model has. The randomness of key generation is the iteration index.
- `PutCString` assumes that `gen_privatekey` writes the WIF text and one terminator, and nothing past it. libbtc's encoder is not part of this model.
- The values of libbtc's `btc_chainparams_main` and `btc_chainparams_test` are not shown in the source. They are the constructors `BitcoinMain` and `BitcoinTest`.
- The sizes of the unused fields (4 bytes of net magic, a 32-byte genesis hash, 8 DNS seeds) follow libbtc's `chainparams.h`, which is not part of this model. Only their zero values are modelled.
- The `bech32_hrp` field holds `tdoge` in a 5-character array with no room for a terminator. That layout detail is not modelled: the field is plain text.
- `mkdir`, `fopen`, `fprintf` and `fclose` are the `Disk` methods, and each succeeds. A failing `mkdir` is not modelled; its result is ignored anyway.
- `GenerateAddresses`: when the summary name equals the directory name (`LongCurrencyReusesDirName`: a `tdoge…` currency that makes `tiltgap-<currency>-<ts>` reach 254 characters), `fopen(out_txt, "w")` on the directory just made returns NULL, and the later `fprintf(ft, ...)` and `fclose(ft)` (tiltgap.c:205,211) are undefined behaviour. The model's `OpenSummary` succeeds there, so its summary clauses do not describe the program in that case.
- `GenerateAddresses`: a `/` in a `tdoge…` currency makes the directory name a path through a directory that does not exist, so `mkdir` (tiltgap.c:171) and every `fopen` (tiltgap.c:174,197) fail, and the writes to the NULL streams are undefined behaviour. The model's `Disk` methods succeed there.
- `SummaryLines`: its entries are the `fprintf` calls on the summary, not the lines of the file. A newline in the currency or in an address adds lines to the file, so file line `i` is then not iteration `i`'s pair. `SummaryFileLines` proves one line per iteration only when no field holds a newline.
- `Disk.records` is the log of record writes, not the set of files left. `fopen(path, "w")` on a path already written replaces that file, so when record paths coincide (`LongPrefixSharesRecordPath`, or two equal addresses) fewer than `n` files remain.
- One Dafny `char` stands for one byte of a C string. `snprintf` truncates by bytes (tiltgap.c:168,173,195), so for arguments with multi-byte UTF-8 characters the lengths and cut points of the model differ from the program's.
- `JsonRecordRoundTrip`: the decoder refuses the six-character `\uXXXX` escape, which a JSON reader accepts. Since the record holds no escapes at all this changes nothing about records whose fields are `Unescaped`, and a field that is not `Unescaped` still does not read back as itself.
- `time(NULL)` is the parameter `ts`.
- `strtol` and its conversion to `int` are the parameter `strtol`.
- `getopt`'s tokenising and argument permutation are not modelled. The option characters and the operands arrive as two separate sequences.
- The console output of `printf` and `show_usage` is not modelled.
- The public-key and address buffers (128 characters each) and the `pubkeylen` in/out argument belong to the libbtc calls and are not modelled.
- The key buffer is a stack array with no initial value in the program. Here it is an array the caller passes in, so its earlier contents are arbitrary.
