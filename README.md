# systools in Dafny

This project models the logic of three command-line tools from the systools
repository and proves properties of it.

- **scan_network.py** pings every host of an IPv4 block with ICMP Echo
  Requests and counts the hosts that are up, down or unknown. The model
  covers its checksum (`icmp_checksum`), the Echo Request it builds, the test
  that picks the reply out of the datagrams a raw socket delivers, and the
  counter updates of `icmp_ping`.
- **connection_stats.py** reads `/proc/net/{tcp,tcp6,udp,udp6}` and counts
  the connections by remote IP, remote port, local port and state. It then
  prints each table's total, its number of distinct keys, and its most
  frequent keys. The model covers the option mapping, `hex_to_int_to_str`,
  `state_to_str`, the `get_stats` row loop, `sort_dict_value` and the
  total/unique/limit logic of `output_stats`.
- **lsod.py** counts the open file descriptors of every process under
  `/proc`:
  - per process, per descriptor type and in grand totals;
  - optionally per thread name;
  - and it prints the heaviest processes.

  The model covers:
  - `get_fd_type`, `get_taskid`, `get_comm` and `get_ppid`;
  - the `get_pids` filter;
  - the accounting and task recursion of `get_stats`;
  - `sort_dict_by_val`;
  - the row and thread limits of `print_pids`.

Files:

| file | module | contents |
|---|---|---|
| wrappers.dfy | Wrappers | `Option` and `Result` |
| counts.dfy | Counts | Python counter dictionaries as insertion-ordered `(key, count)` sequences; `d[k] = v`, `d[k] += 1`, the get-or-zero idiom, and the stable descending sort by count |
| text.dfy | Text | the Python string operations the tools use: `split()`, `split(':')`, `find`, `rfind`, slicing, `isdigit`, `replace("\n", "")`, `int(s)`, `int(s, 16)`, `str(n)` |
| checksum.dfy | Checksum | `icmp_checksum` and the RFC 1071 Internet checksum it computes |
| echo.dfy | Echo | the RFC 792 echo message, the reply test, and `icmp_ping` as a method on a class holding the three counters |
| connstats.dfy | ConnectionStats | connection_stats.py; its globals are a class |
| lsod.dfy | Lsod | lsod.py; its five dictionaries are a class, specified by a value `Counters` and functions over it |

Modelling choices:

- **Dictionaries.** A Python dictionary is a sequence of `(key, count)` pairs
  with distinct keys, in insertion order. `sorted(d.items(), key=..., reverse=True)`
  is stable, so entries with equal counts come out in insertion order. The
  model keeps that order.
- **Operating-system results as inputs.**
  - scan_network.py:
    - whether `connect` and `sendall` succeeded;
    - the random identifier;
    - the datagrams that arrive before the deadline.
  - connection_stats.py: the lines of a `/proc/net` file, or None when it
    cannot be opened.
  - lsod.py: a `/proc` snapshot (`ProcFs`), which holds:
    - directory listings;
    - file contents;
    - link targets;
    - the paths `os.path.isfile` accepts.

    A path missing from the snapshot is a call that raises.
- **Errors.** An exception the tool raises is a `Failure` value or an error
  out-parameter, never a precondition:
  - an unsupported `--ver`;
  - an `int(limit)` that fails;
  - a `/proc/net/<proto>` file that cannot be opened (it raises after the
    protocol's empty tables were created);
  - a row with too few columns or an address without exactly one `:`;
  - a missing `pid_extra` key in `print_pids`.
- **Proof style.** Every state-changing method is specified by a function
  over the old state, and the properties are proved as lemmas about that
  function. For example:
  - `FdCensus.GetStats` is specified by `GetStatsSpec`;
  - `GetStatsEffect` proves what that spec does to the counters.

Behaviours of the code worth stating plainly:

- **Counters of scan_network.py.** A target does not always add exactly one
  to up, down or unknown:
  - a target whose `connect` fails adds to none of them;
  - a target whose `sendall` fails adds to unknown and then also to up or
    down, because the wait loop still runs.

  `Echo.Prober.Ping` states this behaviour.
- **Malformed replies.** A datagram shorter than 20 bytes or than its IP
  total length is skipped, and the wait goes on (`Echo.Skipped`).
- **Verification value.** Re-summing a completed frame gives `0xFFFF` before
  the complement. `icmp_checksum` complements that sum, so
  `Checksum.ChecksumOfCompletedMessage` states that the result is `00 00`.
- **Threads counted again in lsod.py.** `get_stats` skips only the task whose
  id equals the pid. Threads normally share one descriptor table, so every
  other task's `fd/` lists the same descriptors again: a process with 4
  threads and 10 descriptors scores 40, and `totals` grows by as much.
  `Lsod.ScanTasksEffect` and `Lsod.GetStatsEffect` state this sum.

## Model

| member | source | states |
|---|---|---|
| Checksum.IcmpChecksum | scan_network.py:39-43 | the checksum is exactly two bytes for every input, the empty one included |
| Checksum.EnumeratedIsLittle | scan_network.py:40 | the generator sum adds even-index bytes as low bytes and odd-index bytes as high bytes: it is the sum of the little-endian 16-bit words, a trailing odd byte acting as if zero-padded |
| Checksum.Unmasked | scan_network.py:40 | for inputs of at most 131074 bytes the sum stays below 2^32, so `& 0xFFFFFFFF` drops nothing |
| Checksum.SwapIdentity | scan_network.py:40 | 256 times the sum of the network-order words differs from the little-endian sum by a multiple of 0xFFFF (byte-order independence, section 2(B) of RFC 1071) |
| Checksum.FoldTwice | scan_network.py:41-42 | two folds of a 32-bit value fit in 16 bits, lose only a multiple of 0xFFFF, and give zero only for zero |
| Checksum.FoldedFitsSixteenBits | scan_network.py:41-43 | after the two folds the value is at most 0xFFFF, so the final `& 0xFFFF` drops no bit of it |
| Checksum.ChecksumWord | scan_network.py:40-43 | for inputs of at most 131074 bytes, the packed value is 0xFFFF minus the twice-folded little-endian sum |
| Checksum.LittleEndianValue | scan_network.py:43 | `struct.pack('<H', w)` puts the low byte first: reading the two bytes back little-endian gives `w` |
| Checksum.ChecksumIsRfc1071 | scan_network.py:39-43 | for inputs of at most 131074 bytes, the two bytes returned are the RFC 1071 checksum (complement of the one's-complement sum of the network-order words), high byte first |
| Checksum.ChecksumOfCompletedMessage | scan_network.py:39-43 | once the checksum computed over a zero checksum field is written into bytes 2-3, the checksum of the whole message is `00 00` (the verification of section 1 of RFC 1071) |
| Echo.BigEndianRoundTrip | scan_network.py:49 | `struct.pack('!H', w)` is two bytes that read back as `w` |
| Echo.ReadBigEndianRoundTrip | scan_network.py:63 | the Total Length read with `'!xxH'` re-packs to the same two bytes |
| Echo.DecodeEcho | scan_network.py:56 | a byte string decodes as an echo message exactly when it has at least 8 bytes, with a two-byte checksum and the remaining bytes as data |
| Echo.DecodeEchoMessage | scan_network.py:49-56 | the request (and the expected reply) is `8 + len(data)` bytes: the type, code 0, the checksum over a zero checksum field, the big-endian identifier, the big-endian sequence `count`, then the data |
| Echo.EncodeDecodeEcho | scan_network.py:65 | every string of at least 8 bytes is the encoding of the fields it decodes to |
| Echo.EchoMessageVerifies | scan_network.py:56 | the checksum of the complete request (or reply) is `00 00` |
| Echo.AnswerFields | scan_network.py:63-65 | a datagram answers exactly when it is not skipped and, after byte 20, decodes to type 0, code 0, the expected checksum, our identifier, sequence and data |
| Echo.AnswerIsUnique | scan_network.py:65 | a datagram that answers two payloads answers the same identifier, sequence and data: a reply that differs in any of them never matches |
| Echo.AnswerLength | scan_network.py:63-65 | an answer is exactly 28 bytes longer than the data |
| Echo.RequestIsNoAnswer | scan_network.py:65 | our own Echo Request, looped back, is never taken for the answer |
| Echo.AnswerVerifies | scan_network.py:65 | an accepted answer carries a valid ICMP checksum |
| Echo.ReplyIsAnswer | scan_network.py:63-65 | a host that sends back the expected reply, behind a 20-byte header whose Total Length does not exceed the datagram, is recognised |
| Echo.FirstAnswer | scan_network.py:61-68 | the position of the first datagram that answers, with none before it; None exactly when no datagram answers |
| Echo.ClassifyUpIffAnswered | scan_network.py:61-70 | a connected probe ends Up or Down; Up exactly when some datagram answers, and then the loop stops right after the first answer |
| Echo.Prober.constructor | scan_network.py:32-34 | the three counters start at 0 |
| Echo.Prober.Ping | scan_network.py:45-70 | a failed connect returns with no counter changed and nothing sent. Otherwise: the request frame is sent; a failed sendall adds one to `total_unknown`; the datagrams are read up to the first answer; and exactly one of `total_up` (an answer arrived) or `total_down` (none did) rises by one |
| Echo.ExampleRequest | scan_network.py:49-56 | identifier 0x1234, sequence 1 and no data give the bytes `08 00 E5 CA 12 34 00 01` |
| Echo.ExampleReply | scan_network.py:63-65 | the matching reply answers that request; the same reply does not answer sequence 2 |
| ConnectionStats.ProtocolsAreTables | connection_stats.py:54-66 | every accepted `--ver` yields at least one protocol, each a /proc/net table (tcp, tcp6, udp, udp6) |
| ConnectionStats.ProtocolsRejected | connection_stats.py:54-66 | `--ver` is rejected (exit status 2) exactly when it is neither "all" nor one of the six supported names |
| ConnectionStats.OutputLimitOfNumber | connection_stats.py:68-72 | any integer written in decimal becomes the output limit |
| ConnectionStats.HexToIntToStrRoundTrip | connection_stats.py:104-106 | for a hexadecimal string the result is a decimal digit string, and reading it back gives `int(hex, 16)` |
| ConnectionStats.KnownStateCodes | connection_stats.py:23-36 | the state table holds exactly the codes "01" to "09" and "0A" to "0C" |
| ConnectionStats.StateToStrUnknown | connection_stats.py:108-116 | "Unknown_state" is returned exactly for codes outside the table, and no two known codes share a name |
| ConnectionStats.SplitAddress | connection_stats.py:157-163 | an address `ip:port` with no other colon unpacks into the two |
| ConnectionStats.ParseWordsRow | connection_stats.py:155-172 | a row of at least four columns whose second and third are `ip:port` yields its remote IP, remote port, local port and state |
| ConnectionStats.ParseRowOf | connection_stats.py:155-172 | the same, for any row whose whitespace-split columns are given |
| ConnectionStats.CountRowEffect | connection_stats.py:158-175 | one row raises the count of its remote IP, remote port, local port and state by exactly one and changes no other entry; keys stay distinct |
| ConnectionStats.CountRowTotals | connection_stats.py:158-175 | one row adds exactly one to the total of each of the four tables, and every present key keeps a count of at least 1 |
| ConnectionStats.TallyRowsTotals | connection_stats.py:154-175 | when no row raises, each table's total grows by the number of rows and every present key has a count of at least 1 |
| ConnectionStats.TallyRowsStep | connection_stats.py:154-175 | the loop over one more row is the loop so far followed by that row, unless an earlier row raised |
| ConnectionStats.TallyRowsFails | connection_stats.py:154-175 | a row that raises ends the whole file's tally with its error |
| ConnectionStats.TallyRowsStops | connection_stats.py:154-175 | once a row raises, the rows after it are not read |
| ConnectionStats.TallyRowsAppend | connection_stats.py:143-154 | reading a second file into existing tables counts onto them: the result is the tally of the concatenated rows |
| ConnectionStats.CountConnection | connection_stats.py:155-175 | one iteration of the row loop: the row's four counts rise, or the row's error is returned with the tables as `LeftByRaise` leaves them |
| ConnectionStats.LeftByRaiseEffect | connection_stats.py:155-175 | a row that raises keeps the tables well formed and the state table unchanged; the remote-address, remote-port and local-port tables gain the same total, zero or one |
| ConnectionStats.LoopTablesStops | connection_stats.py:154-175 | once a row raises, the rows after it change no table |
| ConnectionStats.LoopTablesWellFormed | connection_stats.py:154-175 | every table keeps distinct keys through the row loop, whether it ends normally or a row raises |
| ConnectionStats.CountConnections | connection_stats.py:154-175 | the row loop gives the tally of all rows, or the error of the first row that raises together with the tables as that row left them |
| ConnectionStats.Shown | connection_stats.py:193-196 | at most the table size and at most a positive limit are printed: exactly `limit` entries when the table has that many, all of them when it has fewer; all entries when the limit is 0, none when it is negative |
| ConnectionStats.TakeShown | connection_stats.py:193-208 | the limit loop prints the first `Shown` entries of the sorted table, in order |
| ConnectionStats.OutputTable | connection_stats.py:189-208 | the header's total is the sum of the counts, its unique figure the number of keys, and the printed entries are the first `Shown` of `sort_dict_value`'s order |
| ConnectionStats.ShownAreTop | connection_stats.py:193-208 | every printed count is at least every count left unprinted |
| ConnectionStats.ConnectionStats.constructor | connection_stats.py:12-20 | no tables, no protocols, output limit 10 |
| ConnectionStats.ConnectionStats.ParseArgs | connection_stats.py:41-72 | sets the protocols and then the limit from their mappings; an unsupported `--ver` stops before the limit is read; the tables are untouched |
| ConnectionStats.ConnectionStats.GetStats | connection_stats.py:118-175 | creates the protocol's tables only if absent; when /proc/net/<proto> cannot be opened, returns that error with the tables just created; otherwise drops the header line, tallies the remaining rows onto them (or returns the first row's error, keeping what was counted before it and that row's zero entries); changes no other protocol, and keeps every table's keys distinct |
| Counts.Lookup | connection_stats.py:158 | `d.get(k)` is None exactly when `k` is not a key |
| Counts.PutEffect | lsod.py:106 | `d[k] = v` keeps keys distinct, sets `k` to `v`, keeps every other count, and changes the sum by `v` minus the old count |
| Counts.IncrementEffect | connection_stats.py:167-169 | `d[k] += 1` raises the count of `k` and the sum by one and changes nothing else |
| Counts.SetDefaultEffect | connection_stats.py:158-165 | `if d.get(k) is None: d[k] = 0` adds `k` if missing and changes no count or sum |
| Counts.BumpIsDefaultThenIncrement | connection_stats.py:173-175 | the two source steps (create at 0, then `+= 1`) are one Bump |
| Counts.BumpEffect | connection_stats.py:173-175 | counting one occurrence raises that key's count and the sum by one and keeps keys distinct |
| Counts.BumpPositive | connection_stats.py:158-175 | counting keeps every present count at least 1 |
| Counts.PutOwnCount | lsod.py:204 | `d[c] = d.get(c, 0)` only adds a missing key, like the create-at-0 step |
| Counts.SortByCount | connection_stats.py:177-180 | `sorted(d.items(), key=count, reverse=True)` (also `sort_dict_by_val`, lsod.py:71-72) is a permutation of the items |
| Counts.SortedByCount | connection_stats.py:177-180 | the sorted items have non-increasing counts |
| Counts.SortIsStable | connection_stats.py:177-180 | items with equal counts keep their insertion order |
| Counts.SortKeepsDistinct | connection_stats.py:177-180 | sorting keeps the set of keys and keeps them distinct |
| Text.FieldsOfUnwords | connection_stats.py:155 | `split()` of words joined by spaces gives the words back |
| Text.SplitJoin | connection_stats.py:157 | `split(':')` of pieces joined by ':' gives the pieces back |
| Text.JoinSplit | connection_stats.py:157 | joining the pieces of `split(':')` gives the string back |
| Text.ParseShowInt | connection_stats.py:72 | `int(str(n)) == n` for every integer |
| Text.FindIsFirst | lsod.py:158-159 | an occurrence with none before it (from `start`) is what `find` returns |
| Text.RemoveNewlines | lsod.py:140 | `replace("\n", "")` leaves no newline and keeps every other character, as often as it occurred |
| Lsod.FirstMarker | lsod.py:118-124 | the first marker (in get_fd_type's order) that the link contains, with none before it |
| Lsod.FdType | lsod.py:116-130 | the type is always one of the nine keys of `totals` |
| Lsod.FdTypeTestsInOrder | lsod.py:116-130 | socket:, anon_inode:, /dev/, pipe:, /sys/, /run/, /proc/ are tested in that order and the first hit wins; otherwise `isfile` chooses "file" or "unknown" |
| Lsod.TotalsKeysAreFdTypes | lsod.py:19-29 | the keys of `totals` are exactly the nine names get_fd_type can return, so `totals[fd_type] += 1` never misses |
| Lsod.TotalsDistinct | lsod.py:19-29 | the nine keys of `totals` are distinct |
| Lsod.FindTaskMarker | lsod.py:158 | in `/proc/<pid>/task/...` the first "/task/" follows the pid |
| Lsod.FindFdMarker | lsod.py:159 | after the task id the first "/fd/" ends it |
| Lsod.TaskIdOfFdPath | lsod.py:156-159 | for `/proc/<pid>/task/<tid>/fd/<n>`, get_taskid returns `<tid>` |
| Lsod.ExampleTaskId | lsod.py:156-159 | `get_taskid("/proc/10067/task/15335/fd/55")` is "15335" |
| Lsod.SplitPpidReadsFourth | lsod.py:146-154 | get_ppid as written returns the fourth whitespace-separated field of the stat line |
| Lsod.SplitPpidOfPlainComm | lsod.py:146-154 | for a command name without whitespace that field is the parent pid |
| Lsod.SplitPpidOfSpacedComm | lsod.py:146-154 | for a command name holding one space, get_ppid as written returns the state letter instead of the parent pid |
| Lsod.SplitPpidMisreadsSpacedComm | lsod.py:146-154 | for "1 (Web Content) S 7" get_ppid as written returns "S"; the corrected reading returns "7" |
| Lsod.CutAtLastClose | lsod.py:150-152 | in a stat line the last ')' closes the command name |
| Lsod.PpidOfJoined | lsod.py:150-152 | reading after the last ')' gives the second field of the rest |
| Lsod.StatPpidOfStatLine | lsod.py:146-154 | the corrected reading returns the parent pid for every command name, spaces and parentheses included |
| Text.LastIndexOfIsLast | lsod.py:146-154 | `rfind(c)` finds `c` at its result and nowhere after it |
| Lsod.KeptExactly | lsod.py:95-108 | get_pids keeps a name exactly when an entry with that name is a directory, has an all-digit name and a non-empty fd directory, and is not the tool's own pid unless `include_self` |
| Lsod.ZeroScoresEffect | lsod.py:104-106 | the listed pids get a score of 0, no other score changes, and keys stay distinct |
| Lsod.TasksToScanExactly | lsod.py:214-226 | the tasks scanned are the listed tasks less the process's own id; none when the listing fails or lacks that id |
| Lsod.ReadingOf | lsod.py:193-207 | a readable descriptor always has a known type; it records comm and ppid exactly when a process is scanned, and a thread name exactly when a task is scanned with threads shown |
| Lsod.Tick | lsod.py:187-212 | the accounting of one descriptor adds no score key and no totals key |
| Lsod.TickEffect | lsod.py:187-212 | one descriptor raises the pid's score, its count of the type and the type's grand total by exactly one, changes no other score, total or other pid's types, and keeps the accounting consistent |
| Lsod.StatsStep | lsod.py:209-211 | counting a type for a pid keeps each pid's type counts summing to its score |
| Lsod.ThreadsStep | lsod.py:198-205 | counting a thread name keeps each pid's thread counts at most its score |
| Lsod.Readings | lsod.py:176-212 | one reading per readable descriptor, in order |
| Lsod.TicksEffect | lsod.py:176-212 | a run of descriptors raises the pid's score by their number, changes no other score, and keeps the accounting consistent |
| Lsod.TicksKinds | lsod.py:176-212 | a run of descriptors raises each type's grand total and the pid's count of it by the number of descriptors of that type |
| Lsod.CountFd | lsod.py:176-212 | the loop body adds no score key and no totals key |
| Lsod.CountFds | lsod.py:176-212 | the loop over the descriptors adds no score key and no totals key |
| Lsod.CountFdsStep | lsod.py:176-212 | the loop over one more descriptor is the loop so far followed by its body |
| Lsod.LinkCounted | lsod.py:178-212 | a symlink whose link can be read is counted |
| Lsod.LinkSkipped | lsod.py:178-184 | a non-symlink, or a symlink whose readlink fails, changes nothing |
| Lsod.CountFdsTicks | lsod.py:176-212 | the loop over the descriptors is the accounting of their readings, and the types counted are theirs |
| Lsod.CountFdsEffect | lsod.py:176-212 | the loop raises the pid's score by the number of readable descriptors, each grand total and the pid's count of that type by how many have it, and keeps per-pid type counts summing to the score and the totals summing to all scores |
| Lsod.StartConsistent | lsod.py:13-29 | after /proc is listed with every score at 0, the accounting is consistent and every listed pid is ready to be counted |
| Lsod.ScanTasks | lsod.py:225-226 | the task loop adds no score key and no totals key |
| Lsod.GetStatsSpec | lsod.py:161-226 | get_stats adds no score key and no totals key |
| Lsod.ScanTasksStep | lsod.py:225-226 | the task loop over one more task is the loop so far followed by get_stats on that task |
| Lsod.TaskStats | lsod.py:163-212 | get_stats on a task directory counts that directory's descriptors as a thread's, with no recursion |
| Lsod.ScanTasksEffect | lsod.py:214-226 | the task loop raises the pid's score by the number of descriptors read in the tasks, and each total by how many have that type; the accounting stays consistent |
| Lsod.GetStatsEffect | lsod.py:161-226 | one get_stats call raises the pid's score by the number of descriptors it reads (own directory, then the other tasks'), each total by how many have that type, changes no other score, and keeps the accounting consistent |
| Lsod.StatsSpec | lsod.py:272-275 | running get_stats for each listed pid adds no score key and no totals key |
| Lsod.StatsSpecStep | lsod.py:272-275 | every listed pid stays ready, and one more pid is one more get_stats call |
| Lsod.RowThreadLines | lsod.py:246-261 | a row shows thread lines exactly when threads are requested and the pid has some; they come by non-increasing count, at most `max_threads` of them when that is at least 1, and all of them otherwise |
| Lsod.TopThreads | lsod.py:254-261 | the thread loop prints the first `max_threads` names by count (all of them when `max_threads` < 1) |
| Lsod.CountOne | lsod.py:176-212 | the loop body on the dictionaries as a value is the accounting of one descriptor |
| Lsod.CountType | lsod.py:209-211 | `pid_stats[pid]` after the create-at-0 and `+= 1` steps is one Bump |
| Lsod.CountThread | lsod.py:204-205 | `pid_threads[pid]` after `d[c] = d.get(c, 0)` and `+= 1` is one Bump |
| Lsod.FdCensus.constructor | lsod.py:13-35 | empty dictionaries, `totals` at zero for the nine types |
| Lsod.FdCensus.GetPids | lsod.py:78-109 | returns the kept names (None when the directory cannot be listed) and sets their scores to 0 only when listing /proc; nothing else changes |
| Lsod.FdCensus.CountDescriptor | lsod.py:186-212 | the dictionaries change as one descriptor's accounting says |
| Lsod.FdCensus.CountDir | lsod.py:176-212 | the loop over a directory's entries counts exactly its readable symlinks, in order |
| Lsod.FdCensus.GetStats | lsod.py:161-226 | the dictionaries change as `GetStatsSpec` says: the process's own descriptors, then every other task's |
| Lsod.FdCensus.ScanOwnTasks | lsod.py:214-226 | the task tail of get_stats counts the tasks of `TasksToScan`, in listing order |
| Lsod.FdCensus.PrintPids | lsod.py:233-263 | rows in `sort_dict_by_val(pid_score)` order with non-increasing counts, at most `max_pids` of them; when a pid lacks its comm, ppid or types, it stops there and names that pid |
| Lsod.FdCensus.Collect | lsod.py:267-275 | lists /proc, then runs get_stats for every listed pid in order; the accounting ends consistent |
| Lsod.FdCensus.StatsOfAll | lsod.py:272-275 | get_stats for each pid in turn, keeping the accounting consistent |

## Left out

- `python_multicast.py`: socket set-up and an endless receive loop, with no logic of its own.
- The thread pools (scan_network.py:109-112, lsod.py:272-275): targets and pids are processed one at a time. The unsynchronised `+=` on shared counters has no sequential meaning.
- Raw sockets, `select`, `time.time()`, the deadline arithmetic and `random.randrange` are inputs to `Echo.Prober.Ping`: whether connect and sendall succeed, the identifier, and the datagrams that arrive before the deadline.
- `cidr_to_list` (host enumeration by the `ipaddress` library), `parse_args` of scan_network.py and lsod.py (argparse; lsod's options are the `Config` value), `main`'s scheduling, and every `print` and format string. This includes `print_totals`, `print_row` and `pad_for_threads`.
- `hex_to_ipv4` and `hex_to_ipv6`: they depend on the host's byte order and on `inet_ntop` formatting. `output_stats` sends every remote address outside "tcp6" to `hex_to_ipv4`, udp6's 32-digit ones included; there `struct.pack("=L", ...)` raises for any value of 2^32 or more, so `--ver udp6` with a connected UDPv6 socket stops the output part-way. The model does not print addresses and does not capture this raise.
- The `/proc` file system: listings, reads, `readlink`, `os.getpid` and `os.path.isfile` come from the `ProcFs` snapshot and the `selfPid` parameter. A file that changes between two reads is not modelled.
- `cfg['max_workers']`: it only sizes the thread pool.
- The alphabetical `sorted(...)` loops of `output_stats` over protocols and tables, and `sorted(pid_stats[pid])` in `print_pids`: they only order the printing. `OutputTable` models one table.
- `main` of lsod.py raises when `/proc` cannot be listed (`get_pids` returns None). `Lsod.FdCensus.Collect` returns None there and counts nothing.
- Text.IsDigits: `str.isdigit` also accepts non-ASCII digits. The model accepts ASCII digits only.
- Checksum.ChecksumIsRfc1071: proved only for inputs of at most 131074 bytes. Beyond that, the 32-bit mask can drop carries.
- Echo.EchoMessageVerifies: proved only for payloads of at most 131070 bytes, for the same reason. A datagram read by `recv(65536)` is always shorter.
- Lsod.GetPpid: models `get_ppid` as written (`Lsod.SplitPpid`), so a command name holding whitespace gives a wrong parent pid (see Findings). The corrected reading, `Lsod.StatPpid`, is proved but not used by the census.
- Text.ParseInt: models `int(s)` for an optional sign and ASCII digits only. Python also accepts surrounding whitespace, `_` between digits and non-ASCII digits; the model returns None for those, so `--limit " 7"` or `--limit 1_0` is an error here but not in the tool.
- Text.HexValue: models `int(s, 16)` for ASCII hexadecimal digits only. Python also accepts surrounding whitespace, `_` between digits, a sign and a `0x` prefix. The fields of /proc/net/tcp never hold them.
- Echo.Prober.Ping: creating the raw socket (scan_network.py:47) is outside any `try`. When it fails, the exception passes through `future.result()` (scan_network.py:112) and ends the program before the totals are printed. Ping has no input or outcome for this.

## Findings

| source | as written | input that shows it | evidently intended | confidence | as-written member | corrected member |
|---|---|---|---|---|---|---|
| lsod.py:146-154 | `get_ppid` returns `split()[3]` of /proc/pid/stat, counting fields from the start of the line | the stat line "1 (Web Content) S 7": the command name holds a space, so field 3 is "S" | the parent pid, which proc(5) places two fields after the `)` that closes the command name | medium, not executed | Lsod.SplitPpidMisreadsSpacedComm | Lsod.StatPpidOfStatLine |
