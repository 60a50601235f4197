# icmpnam configuration loading, in Dafny

icmpnam tunnels IP traffic through ICMP. Before it opens its tun device and
its sockets, it reads a configuration file with `conf_load`. Each line names an option from
the `configopts` table (`remote`, `dev`, `divert_port`) followed by its
arguments, and the option's handler (`conf_remote`, `conf_dev`,
`conf_divert_port`) stores them in the globals `in_remote`, `tun_dev`,
`tun_us`, `tun_them` and `divert_port`. After the last line a missing device
or remote is fatal.

This project models that parser and its handlers and proves what they
guarantee. icmpnam.c holds no ICMP encapsulation: its three event handlers
only read and discard (icmpnam.c:308-341).

- `Wrappers` (wrappers.dfy): the `Option` type shared by the libc models.
- `CStr` (cstr.dfy): lines as C strings (a `seq<char>` with no NUL, whose
  terminator is read at offset `|s|`), plus `strspn`/`strcspn` over the
  separators `" \t\n"` and `strncasecmp`.
- `Strtonum` (strtonum.dfy): `strtonum(s, 0, USHRT_MAX)` as
  `conf_divert_port` uses it. That is `strtoll` in base 10 over the whole
  string, then the range check.
- `Conf` (conf.dfy): the globals as a value, the option table, and the three
  handlers as functions. It also holds the argument loop (`Collect`), the
  option loop exactly as written (`ScanOpts`, `Matched`), one line
  (`ParseLine`) and the whole load (`LoadFrom`).
- `ConfProps` (props.dfy): what a line and a load guarantee, proved about
  those functions.
- `Loader` (loader.dfy): the class `Icmpnam`, whose fields are the globals.
  Its methods are `conf_load` and the handlers written imperatively: a cursor
  walks each line, `while` loops run over the table and the arguments, and
  the handlers assign the fields. Each method's postcondition ties its
  result and new state to the function of `Conf` it implements.
- `Findings` (findings.dfy): the cursor overrun caused by the option loop's
  missing `break`, and the corrected loop with its guarantees.

A run of `conf_load` over a line ends in one of three ways:
- `Done`: the line was consumed.
- `Failed(reason)`: `conf_load` returns -1. The reason is a missing option, too few
  arguments, an argument that is too long, or a handler that returned -1.
- `Overrun`: the cursor was moved past the line's terminator, and the C program's
  behaviour from then on is undefined.

The whole load ends as `Loaded` (0), `LineFailed(n)`, `Undefined(n)`, or with
one of the two `fatalx` calls (`NoDev`, `NoRemote`).

## Model

| member | source | states |
|---|---|---|
| CStr.Strspn | icmpnam.c:184 | skipping separators never moves the cursor past the terminator |
| CStr.StrspnStop | icmpnam.c:184 | the skip stops at the terminator or at a non-separator |
| CStr.StrspnRun | icmpnam.c:184 | every character skipped is a space, tab or newline |
| CStr.Strcspn | icmpnam.c:190 | a word never extends past the terminator |
| CStr.StrcspnStop | icmpnam.c:190 | a word ends at the terminator or at a separator |
| CStr.StrcspnRun | icmpnam.c:190 | every character of a word is a non-separator |
| CStr.WordsEmpty | icmpnam.c:203-205 | no word is left exactly when skipping separators reaches the terminator |
| CStr.StrncaseEq | icmpnam.c:197 | `strncasecmp(s + i, t + j, n) == 0`: at most n characters compared case-insensitively, stopping where both strings end; characterised by `StrncaseEqRun` and `AtEndNoMatch` |
| CStr.StrncaseEqRun | icmpnam.c:197 | `strncasecmp(cp, name, wordlen) == 0` on a word of `wordlen` characters holds exactly when the word is a case-insensitive prefix of the name |
| CStr.AtEndNoMatch | icmpnam.c:196-198 | with the cursor on the terminator and a positive length, no option name matches |
| Strtonum.Strtoll | icmpnam.c:146 | `strtoll(s, &ep, 10)` consuming the whole string; characterised by `StrtollDigits` and `NonNumericInvalid` |
| Strtonum.StrtollDigits | icmpnam.c:146 | a bare run of digits is read as its decimal value |
| Strtonum.StrToNum | icmpnam.c:146 | a number is returned exactly when the whole string reads as an integer in `[lo, hi]`; it is the value strtoll read, so it lies in that range |
| Strtonum.DecimalValue | icmpnam.c:146 | the decimal spelling of n has the digit value n |
| Strtonum.DecimalRoundTrip | icmpnam.c:146 | every value in `[lo, hi]` written in decimal is read back as itself |
| Strtonum.NonNumericInvalid | icmpnam.c:146-147 | an argument with no leading white space and a non-digit after its first character is invalid |
| Conf.SetRemote | icmpnam.c:101-113 | conf_remote never fails (inet_aton reports failure with 0, not -1); `in_remote` is set when the address parses and unchanged otherwise; nothing else changes |
| Conf.Strlcpy | icmpnam.c:126 | the copy into tun_dev is the whole name when it fits and otherwise exactly its first IFNAMSIZ - 1 characters |
| Conf.SetDev | icmpnam.c:115-138 | conf_dev succeeds exactly on a `tun` prefix; on failure nothing changes; on success tun_dev is the strlcpy of the name, a tun name shorter than IFNAMSIZ; tun_us and tun_them take the addresses inet_aton parses and are unchanged where it fails; remote, port and warnings are untouched |
| Conf.SetDivertPort | icmpnam.c:140-154 | conf_divert_port succeeds exactly on an integer in `[0, 65535]` and stores it; on failure divert_port is already overwritten with 0; nothing else changes |
| Conf.Call | icmpnam.c:227 | `copts->func(argv)`: no handler touches the warnings, only conf_divert_port touches divert_port, conf_remote always succeeds and conf_dev succeeds exactly on a `tun` prefix |
| Conf.Collect | icmpnam.c:202-221 | a successful argument loop yields exactly nargs words, a cursor inside the line, and a last word length in `(0, 1024)` |
| Conf.CollectTooLong | icmpnam.c:212-215 | the argument loop fails with "too long" when one of the next nargs words has 1024 characters or more |
| Conf.CollectTooFew | icmpnam.c:204-211 | with fewer than nargs words left, all of them short, the loop fails and reports how many it took |
| Conf.CollectWords | icmpnam.c:202-221 | otherwise argv holds exactly the next nargs words and only the words after them are left |
| Conf.Matched | icmpnam.c:199-228 | after a match the scan goes on with the cursor inside the line and a positive word length, or the line fails for a reason other than a missing option |
| Conf.ScanOpts | icmpnam.c:196-231 | the option loop as written, run to the end of the table without a break; it only appends to the warnings; characterised by `ScanSkip`, `ScanAtEnd`, `ScanFirstMatch`, `ScanNeverNoOption` and `ScanKeepsDevOk` |
| Conf.ParseLine | icmpnam.c:183-232 | one line of conf_load; it only appends to the warnings; characterised by `BlankLineSkipped`, `NoOptionUnreachable`, `UnknownWordIgnored` and `FirstMatchDispatch` |
| Conf.LoadFrom | icmpnam.c:173-243 | conf_load over the lines: success only with a non-empty tun_dev and a non-zero remote, warnings only appended; characterised by `LoadedIsComplete` and `LoadStopsAtFailure` |
| ConfProps.BlankLineSkipped | icmpnam.c:183-189 | an empty or separator-only line is consumed with no change and no error |
| ConfProps.ParseStart | icmpnam.c:183-195 | when a non-separator remains, the first word has at least one character and the option scan starts on it |
| ConfProps.ScanNeverNoOption | icmpnam.c:196-231 | the option loop never reports "no option found" |
| ConfProps.NoOptionUnreachable | icmpnam.c:190-195 | no line makes conf_load fail with "no option found" |
| ConfProps.ScanSkip | icmpnam.c:196-198 | table entries whose name the word is not a case-insensitive prefix of are passed over |
| ConfProps.UnknownWordIgnored | icmpnam.c:196-232 | a first word that is a prefix of no option name is ignored: no error and no change |
| ConfProps.ScanAtEnd | icmpnam.c:196-198 | once the cursor is on the terminator, the rest of the table matches nothing |
| ConfProps.MatchedTooLong | icmpnam.c:212-216 | a matched option with an argument of 1024 characters or more fails the line, with nothing changed |
| ConfProps.MatchedTooFew | icmpnam.c:202-211 | a matched option with fewer than nargs words after it fails the line, with nothing changed |
| ConfProps.MatchedCall | icmpnam.c:217-228 | otherwise the handler gets exactly the next nargs words; a warning is logged exactly when more words follow; a handler returning -1 fails the line; after success the cursor is at the terminator exactly when no word was left over |
| ConfProps.ScanFirstMatch | icmpnam.c:196-231 | at a matching entry, the scan ends as the match does, or ends the line when the match consumed it |
| ConfProps.FirstMatchDispatch | icmpnam.c:183-231 | the first option the word is a prefix of decides the line: its failure is the line's failure, and a successful call that consumes the line ends it |
| ConfProps.DivertPortDecimal | icmpnam.c:140-154 | every port written in decimal is accepted and stored |
| ConfProps.ScanKeepsDevOk | icmpnam.c:196-231 | the option loop leaves tun_dev empty or a tun name shorter than IFNAMSIZ |
| ConfProps.ParseKeepsDevOk | icmpnam.c:183-231 | so does every line |
| ConfProps.LoadStep | icmpnam.c:173-233 | a consumed line lets the load go on with the next; any other outcome of a line means the load does not succeed |
| ConfProps.LoadedIsComplete | icmpnam.c:236-242 | a successful load leaves a remote and a tun device whose name fits in tun_dev |
| ConfProps.LoadFromInitial | icmpnam.c:63-67 | from static storage, a successful load has set a tun device and a remote |
| ConfProps.LoadStopsAtFailure | icmpnam.c:173-233 | the load stops at the first failing line: appending lines changes nothing |
| Loader.Icmpnam.constructor | icmpnam.c:63-67 | the globals start zeroed with divert_port = DIVERT_PORT |
| Loader.Icmpnam.ConfRemote | icmpnam.c:101-113 | returns 0 and updates the fields as `SetRemote` says |
| Loader.Icmpnam.ConfDev | icmpnam.c:115-138 | returns -1 exactly without a `tun` prefix and updates the fields as `SetDev` says |
| Loader.Icmpnam.ConfDivertPort | icmpnam.c:140-154 | returns 0 or -1 and updates divert_port as `SetDivertPort` says |
| Loader.Icmpnam.Dispatch | icmpnam.c:227 | `copts->func(argv)` calls the handler of the entry |
| Loader.Icmpnam.CollectArgs | icmpnam.c:200-221 | the `while (nargs)` loop computes `Collect` |
| Loader.Icmpnam.ConfOption | icmpnam.c:199-228 | the body of the option loop after a match computes `Matched` and leaves the globals it gives |
| Loader.Icmpnam.ConfLine | icmpnam.c:183-232 | one line, with the option loop run to the end of the table, computes `ParseLine` |
| Loader.Icmpnam.ConfLoad | icmpnam.c:157-243 | the whole load computes `LoadFrom` over the lines |
| Findings.AsWrittenOverrun | icmpnam.c:196-201 | the line `remote 1.2.3.4 dev` moves the cursor past its terminator, whatever inet_aton returns |
| Findings.FirstOpt | icmpnam.c:196-231 | with a break after dispatch, the option loop never overruns and never reports "no option found" |
| Findings.ParseLineFixed | icmpnam.c:183-231 | a line read with the corrected loop never overruns |
| Findings.LoadFromFixed | icmpnam.c:173-243 | the corrected load never ends in undefined behaviour |
| Findings.MatchedWarns | icmpnam.c:222-228 | a match appends the line number to the warnings exactly when text is left after the arguments; handlers never remove warnings |
| Findings.ScanAgrees | icmpnam.c:196-231 | the option loop as written and the corrected one agree unless the match warned |
| Findings.ParseLineAgrees | icmpnam.c:183-231 | a line that draws no warning is read the same way by both loops |
| Findings.NoWarningNoOverrun | icmpnam.c:183-231 | on such a line the cursor as written stays inside the line |
| Findings.FirstOptWarnsOnly | icmpnam.c:222-225 | the corrected loop only appends to the warnings |
| Findings.LoadAgrees | icmpnam.c:173-243 | a file that draws no warning is loaded the same way by both loops |
| Findings.FixedLoadedIsComplete | icmpnam.c:236-242 | a successful corrected load leaves a remote and a tun device whose name fits |

## Left out

- File handling is left out: `fopen`, `feof`, `ferror`, `fclose` and `fparseln`. The model is given the lines as read and numbers them from 1 in order. `fparseln` counts physical lines, so after a continued line its `lineno` runs ahead of the model's number. The -1 returns for an unopenable or unreadable file are not modelled, and neither is the `fatalx` for a NULL file name.
- `strdup`, `free` and the `tmp` and `argv` buffers are left out. Arguments are values. Every argument is shorter than `tmp` (1024 bytes), so the copy through `tmp` loses nothing.
- Logging is left out, except the "superfluous argument" warning. That warning is recorded as the list of line numbers it was logged for, because it shows where the missing `break` matters. The two `fatalx` calls at the end become the statuses `NoDev` and `NoRemote`.
- `inet_aton` is a function passed in as a parameter. It is not part of this model. It reports failure with 0 and then leaves the address unchanged, so the `== -1` checks of `conf_remote` and `conf_dev` never fire, as in the code.
- Once the cursor leaves a line, the C program reads memory it does not own. The model stops there with `Overrun`; the load ends as `Undefined`. It does not follow the read.
- `tun_dev` is modelled as the string it holds, up to its terminator, so `tun_dev[0] == 0` is the empty string. `in_remote`, `tun_us` and `tun_them` are modelled as 32-bit values. Their byte order plays no part.
- Strtonum.StrToNum: `strtoll`'s ERANGE case is decided from the exact value. This gives the same "too small"/"too large" answer `strtonum` gives for a numeral beyond `long long`. The errstr texts themselves are not modelled.
- One `char` of a line stands for one byte of the file, and a line is taken up to its first NUL byte. A multi-byte character is not counted byte by byte. So a word of 600 '€' (1800 bytes in UTF-8) fails the `sizeof(tmp)` check in C but not in the model, and the same holds for the IFNAMSIZ cut of `strlcpy`.
- `wordlen` and `nargs` are `int` and `lineno` is `size_t`. Their bounds are never reached by lines of a file that fit in memory, so the model uses unbounded integers.
- Loader.Icmpnam.ConfLine follows the code as written, without the `break`. The corrected loop lives only in `Findings`, where it is proved to agree with the code on every line that draws no warning.
- `main`, `getopt`, `usage`, `display_version`, `tun_open`, `icmp_open`, `divert_open` and the event handlers `tun_read`, `icmp_read` and `divert_read` are left out. They are process, socket and event-loop plumbing, and the handlers are stubs.

## Findings

| source | as written | input that shows it | evidently intended | confidence | as-written member | corrected member |
|---|---|---|---|---|---|---|
| icmpnam.c:196-231 | After a dispatch the option loop goes on. It compares the later table entries against the text after the arguments, using the length of the last argument. A match that reaches the terminator then advances `cp` by that length, past the end of the line. | the line `remote 1.2.3.4 dev`: "dev" is compared with length 7 and matches, and `cp` moves from 15 to 22 in an 18-character line | `break` after a successful dispatch, so that one option is applied per line | not executed | Findings.AsWrittenOverrun | Findings.ParseLineFixed |
