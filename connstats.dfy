/**
 * connection_stats.py: tallies the rows of /proc/net/{tcp,tcp6,udp,udp6} by
 * remote IP, remote port, local port and connection state, and reports the
 * most frequent keys of each table.
 *
 * The contents of a /proc/net file are an input (its lines); printing is
 * replaced by the values that would be printed.
 */
module ConnectionStats {
  import opened Wrappers
  import opened Text
  import opened Counts

  // ---------------------------------------------------------------------------
  // Options
  // ---------------------------------------------------------------------------

  const SupportedProtos: seq<string> := ["tcp", "tcp4", "tcp6", "udp", "udp4", "udp6"]
  const DefaultProto: string := "tcp"
  const DefaultLimit: int := 10

  /** The files under /proc/net the tool can read. */
  const ProcNetTables: set<string> := {"tcp", "tcp6", "udp", "udp6"}

  datatype ArgError = UnsupportedProto(ver: string) | NotAnInteger(limit: string)

  /** The `--ver` mapping of parse_args; an unsupported value ends the program with status 2. */
  function ProtocolsFor(ver: Option<string>): Result<seq<string>, ArgError>
  {
    match ver
    case None => Success([DefaultProto])
    case Some(v) =>
      if v == "all" then Success(["tcp", "tcp6", "udp", "udp6"])
      else if v == "tcp4" then Success(["tcp"])
      else if v == "udp4" then Success(["udp"])
      else if v !in SupportedProtos then Failure(UnsupportedProto(v))
      else Success([v])
  }

  /** Every accepted `--ver` names at least one /proc/net table, and nothing else. */
  lemma ProtocolsAreTables(ver: Option<string>)
    requires ProtocolsFor(ver).Success?
    ensures |ProtocolsFor(ver).value| >= 1
    ensures forall i :: 0 <= i < |ProtocolsFor(ver).value| ==> ProtocolsFor(ver).value[i] in ProcNetTables
  {
  }

  /** `--ver` is rejected exactly when it is neither "all" nor a supported name. */
  lemma ProtocolsRejected(ver: string)
    ensures ProtocolsFor(Some(ver)).Failure? <==> ver != "all" && ver !in SupportedProtos
  {
  }

  /** The `--limit` mapping: 10 when absent, 0 ("everything") for "all", otherwise `int(limit)`. */
  function OutputLimitFor(limit: Option<string>): Result<int, ArgError>
  {
    match limit
    case None => Success(DefaultLimit)
    case Some(s) =>
      if s == "all" then Success(0)
      else match ParseInt(s)
        case None => Failure(NotAnInteger(s))
        case Some(n) => Success(n)
  }

  /** Any integer written in decimal is taken as the limit. */
  lemma OutputLimitOfNumber(n: int)
    ensures OutputLimitFor(Some(ShowInt(n))) == Success(n)
  {
    ParseShowInt(n);
    assert ShowInt(n) != "all" by {
      if n < 0 {
        assert ShowInt(n)[0] == '-';
      } else {
        assert IsDigit(ShowInt(n)[0]);
      }
    }
  }

  // ---------------------------------------------------------------------------
  // Keys as printed
  // ---------------------------------------------------------------------------

  /** `str(int(hex, 16))`; a string that is not hexadecimal is a ValueError. */
  function HexToIntToStr(hex: string): Option<string>
  {
    match HexValue(hex)
    case None => None
    case Some(v) => Some(ShowNat(v))
  }

  /** Reading the printed port back as decimal gives `int(hex, 16)`. */
  lemma HexToIntToStrRoundTrip(hex: string)
    requires HexValue(hex).Some?
    ensures HexToIntToStr(hex).Some? && IsDigits(HexToIntToStr(hex).value)
    ensures ParseInt(HexToIntToStr(hex).value) == Some(HexValue(hex).value as int)
  {
    ParseIntOfDigits(ShowNat(HexValue(hex).value));
  }

  const ConnStates: map<string, string> := map[
    "01" := "ESTABLISHED",
    "02" := "TCP_SYN_SENT",
    "03" := "TCP_SYN_RECV",
    "04" := "TCP_FIN_WAIT1",
    "05" := "TCP_FIN_WAIT2",
    "06" := "TCP_TIME_WAIT",
    "07" := "TCP_CLOSE",
    "08" := "TCP_CLOSE_WAIT",
    "09" := "TCP_LAST_ACK",
    "0A" := "TCP_LISTEN",
    "0B" := "TCP_CLOSING",
    "0C" := "TCP_NEW_SYN_RECV"
  ]

  /** The state name for a /proc/net `st` code, or "Unknown_state". */
  function StateToStr(st: string): string
  {
    if st in ConnStates then ConnStates[st] else "Unknown_state"
  }

  /** The known codes are "01" to "09" and "0A" to "0C", in upper case. */
  lemma KnownStateCodes(st: string)
    ensures st in ConnStates <==> |st| == 2 && st[0] == '0' && (('1' <= st[1] <= '9') || ('A' <= st[1] <= 'C'))
  {
    if |st| == 2 && st[0] == '0' && (('1' <= st[1] <= '9') || ('A' <= st[1] <= 'C')) {
      assert st == ['0', st[1]];
    }
  }

  /** "Unknown_state" is reported exactly for the codes outside the table, and no two codes share a name. */
  lemma StateToStrUnknown(st: string, st': string)
    ensures StateToStr(st) == "Unknown_state" <==> st !in ConnStates
    ensures st in ConnStates && st' in ConnStates && StateToStr(st) == StateToStr(st') ==> st == st'
  {
  }

  // ---------------------------------------------------------------------------
  // Tallying the rows of one file
  // ---------------------------------------------------------------------------

  /** `net_stats[proto]`: the four counter dictionaries of one protocol. */
  datatype Tables = Tables(remoteIp: Tally<string>, localPort: Tally<string>, remotePort: Tally<string>, states: Tally<string>)

  const NoTables: Tables := Tables([], [], [], [])

  predicate WellFormed(t: Tables)
  {
    Distinct(t.remoteIp) && Distinct(t.localPort) && Distinct(t.remotePort) && Distinct(t.states)
  }

  /** Every key present has been counted at least once. */
  predicate Positive(t: Tables)
  {
    AllPositive(t.remoteIp) && AllPositive(t.localPort) && AllPositive(t.remotePort) && AllPositive(t.states)
  }

  /** Why a row makes get_stats raise: an IndexError or a failed `a, b = x.split(':')`. */
  datatype LineError = TooFewColumns(row: string) | NotAnAddress(field: string)

  /** Why get_stats raises: `open` fails on /proc/net/<proto>, or a row raises. */
  datatype StatsError = CannotOpen(path: string) | RowRaised(error: LineError)

  /** The four keys one row is counted under. */
  datatype RowKeys = RowKeys(remoteIp: string, remotePort: string, localPort: string, state: string)

  /**
   * The reads get_stats makes of one row, in its order: column 2 split at ':',
   * then column 1 split at ':', then column 3.
   */
  function ParseRow(row: string): Result<RowKeys, LineError>
  {
    var conn := Fields(row);
    if |conn| < 3 then Failure(TooFewColumns(row))
    else
      var remote := Split(conn[2], ':');
      if |remote| != 2 then Failure(NotAnAddress(conn[2]))
      else
        var local := Split(conn[1], ':');
        if |local| != 2 then Failure(NotAnAddress(conn[1]))
        else if |conn| < 4 then Failure(TooFewColumns(row))
        else Success(RowKeys(remote[0], remote[1], local[1], conn[3]))
  }


  /** The four increments of one row. */
  function CountRow(t: Tables, k: RowKeys): Tables
  {
    Tables(Bump(t.remoteIp, k.remoteIp), Bump(t.localPort, k.localPort), Bump(t.remotePort, k.remotePort), Bump(t.states, k.state))
  }

  /** One iteration of the `for conn in stats` loop. */
  function TallyRow(t: Tables, row: string): Result<Tables, LineError>
  {
    match ParseRow(row)
    case Failure(e) => Failure(e)
    case Success(k) => Success(CountRow(t, k))
  }

  /** The whole loop: the rows in order, stopping at the first that raises. */
  function TallyRows(t: Tables, rows: seq<string>): Result<Tables, LineError>
  {
    if |rows| == 0 then Success(t)
    else match TallyRows(t, rows[..|rows| - 1])
      case Failure(e) => Failure(e)
      case Success(t') => TallyRow(t', rows[|rows| - 1])
  }

  /**
   * The tables a row that raises leaves behind. Reading column 2 creates zero
   * entries for the remote address and port and reading column 1 one for the
   * local port; a row that lacks only column 3 has already raised those three
   * counters. (For a row that parses the value is not used.)
   */
  function LeftByRaise(t: Tables, row: string): Tables
  {
    var conn := Fields(row);
    if |conn| < 3 then t
    else
      var remote := Split(conn[2], ':');
      if |remote| != 2 then t
      else
        var local := Split(conn[1], ':');
        if |local| != 2 then t.(remoteIp := SetDefault(t.remoteIp, remote[0]), remotePort := SetDefault(t.remotePort, remote[1]))
        else t.(remoteIp := Bump(t.remoteIp, remote[0]), remotePort := Bump(t.remotePort, remote[1]), localPort := Bump(t.localPort, local[1]))
  }

  /** What the loop leaves in `net_stats[proto]`, whether it ends normally or a row raises. */
  function LoopTables(t: Tables, rows: seq<string>): Tables
  {
    if |rows| == 0 then t
    else match TallyRows(t, rows[..|rows| - 1])
      case Failure(_) => LoopTables(t, rows[..|rows| - 1])
      case Success(t') =>
        match TallyRow(t', rows[|rows| - 1])
        case Success(t'') => t''
        case Failure(_) => LeftByRaise(t', rows[|rows| - 1])
  }

  /** The rows after the header line, as `stats[1:]`. */
  function DataRows(content: seq<string>): seq<string>
  {
    if |content| == 0 then [] else content[1..]
  }

  /** An address written `ip:port`, with no other colon, splits into the two. */
  lemma SplitAddress(ip: string, port: string)
    requires ':' !in ip && ':' !in port
    ensures Split(ip + ":" + port, ':') == [ip, port]
  {
    SplitJoin([ip, port], ':');
    assert Join([ip, port], ':') == ip + ":" + port;
  }

  /**
   * A row of at least four whitespace-separated columns, the second and third
   * of them `ip:port` (see SplitAddress), parses into its remote address,
   * ports and state.
   */
  lemma ParseWordsRow(ws: seq<string>, remoteIp: string, remotePort: string, localIp: string, localPort: string)
    requires |ws| >= 4 && forall i :: 0 <= i < |ws| ==> IsWord(ws[i])
    requires Split(ws[2], ':') == [remoteIp, remotePort] && Split(ws[1], ':') == [localIp, localPort]
    ensures ParseRow(Unwords(ws)) == Success(RowKeys(remoteIp, remotePort, localPort, ws[3]))
  {
    FieldsOfUnwords(ws);
    ParseRowOf(Unwords(ws), ws, remoteIp, remotePort, localIp, localPort);
  }

  lemma ParseRowOf(row: string, conn: seq<string>, remoteIp: string, remotePort: string, localIp: string, localPort: string)
    requires Fields(row) == conn && |conn| >= 4
    requires Split(conn[2], ':') == [remoteIp, remotePort] && Split(conn[1], ':') == [localIp, localPort]
    ensures ParseRow(row) == Success(RowKeys(remoteIp, remotePort, localPort, conn[3]))
  {
  }


  /**
   * One row raises each of its four counters by exactly one and changes no
   * other entry; the tables stay well formed.
   */
  lemma CountRowEffect(t: Tables, k: RowKeys)
    requires WellFormed(t)
    ensures WellFormed(CountRow(t, k))
    ensures forall x :: CountOf(CountRow(t, k).remoteIp, x) == CountOf(t.remoteIp, x) + (if x == k.remoteIp then 1 else 0)
    ensures forall x :: CountOf(CountRow(t, k).remotePort, x) == CountOf(t.remotePort, x) + (if x == k.remotePort then 1 else 0)
    ensures forall x :: CountOf(CountRow(t, k).localPort, x) == CountOf(t.localPort, x) + (if x == k.localPort then 1 else 0)
    ensures forall x :: CountOf(CountRow(t, k).states, x) == CountOf(t.states, x) + (if x == k.state then 1 else 0)
  {
    var r := CountRow(t, k);
    assert Distinct(r.remoteIp) && forall x :: CountOf(r.remoteIp, x) == CountOf(t.remoteIp, x) + (if x == k.remoteIp then 1 else 0) by {
      BumpEffect(t.remoteIp, k.remoteIp);
    }
    assert Distinct(r.remotePort) && forall x :: CountOf(r.remotePort, x) == CountOf(t.remotePort, x) + (if x == k.remotePort then 1 else 0) by {
      BumpEffect(t.remotePort, k.remotePort);
    }
    assert Distinct(r.localPort) && forall x :: CountOf(r.localPort, x) == CountOf(t.localPort, x) + (if x == k.localPort then 1 else 0) by {
      BumpEffect(t.localPort, k.localPort);
    }
    assert Distinct(r.states) && forall x :: CountOf(r.states, x) == CountOf(t.states, x) + (if x == k.state then 1 else 0) by {
      BumpEffect(t.states, k.state);
    }
  }

  lemma CountRowTotals(t: Tables, k: RowKeys)
    requires WellFormed(t)
    ensures WellFormed(CountRow(t, k))
    ensures Total(CountRow(t, k).remoteIp) == Total(t.remoteIp) + 1
    ensures Total(CountRow(t, k).remotePort) == Total(t.remotePort) + 1
    ensures Total(CountRow(t, k).localPort) == Total(t.localPort) + 1
    ensures Total(CountRow(t, k).states) == Total(t.states) + 1
    ensures Positive(t) ==> Positive(CountRow(t, k))
  {
    BumpEffect(t.remoteIp, k.remoteIp);
    BumpEffect(t.remotePort, k.remotePort);
    BumpEffect(t.localPort, k.localPort);
    BumpEffect(t.states, k.state);
    if Positive(t) {
      BumpPositive(t.remoteIp, k.remoteIp);
      BumpPositive(t.remotePort, k.remotePort);
      BumpPositive(t.localPort, k.localPort);
      BumpPositive(t.states, k.state);
    }
  }

  /** Every table gains one unit of total per counted row, and counted keys stay positive. */
  lemma {:induction false} TallyRowsTotals(t: Tables, rows: seq<string>)
    requires WellFormed(t)
    requires TallyRows(t, rows).Success?
    ensures WellFormed(TallyRows(t, rows).value)
    ensures Total(TallyRows(t, rows).value.remoteIp) == Total(t.remoteIp) + |rows|
    ensures Total(TallyRows(t, rows).value.remotePort) == Total(t.remotePort) + |rows|
    ensures Total(TallyRows(t, rows).value.localPort) == Total(t.localPort) + |rows|
    ensures Total(TallyRows(t, rows).value.states) == Total(t.states) + |rows|
    ensures Positive(t) ==> Positive(TallyRows(t, rows).value)
  {
    if |rows| > 0 {
      var init := rows[..|rows| - 1];
      TallyRowsTotals(t, init);
      var t' := TallyRows(t, init).value;
      var k := ParseRow(rows[|rows| - 1]).value;
      assert TallyRows(t, rows) == Success(CountRow(t', k));
      CountRowTotals(t', k);
    }
  }

  /** One more row of the loop. */
  lemma TallyRowsStep(t: Tables, rows: seq<string>, i: nat)
    requires i < |rows|
    ensures TallyRows(t, rows[..i + 1]) == match TallyRows(t, rows[..i])
      case Failure(e) => Failure(e)
      case Success(t') => TallyRow(t', rows[i])
  {
    assert rows[..i + 1][..i] == rows[..i];
  }

  /** A row that parses extends the tally of the rows before it. */
  lemma TallyRowsGrows(t: Tables, rows: seq<string>, i: nat, before: Tables, after: Tables)
    requires i < |rows| && TallyRows(t, rows[..i]) == Success(before)
    requires TallyRow(before, rows[i]) == Success(after)
    ensures TallyRows(t, rows[..i + 1]) == Success(after)
  {
    TallyRowsStep(t, rows, i);
  }

  /** A row that raises ends the tally of the whole file with its error. */
  lemma TallyRowsFails(t: Tables, rows: seq<string>, i: nat, before: Tables, e: LineError)
    requires i < |rows| && TallyRows(t, rows[..i]) == Success(before)
    requires TallyRow(before, rows[i]) == Failure(e)
    ensures TallyRows(t, rows) == Failure(e)
  {
    TallyRowsStep(t, rows, i);
    TallyRowsStops(t, rows, i + 1);
  }

  /** Once a row raises, the rest of the file is not read. */
  lemma {:induction false} TallyRowsStops(t: Tables, rows: seq<string>, n: nat)
    requires n <= |rows| && TallyRows(t, rows[..n]).Failure?
    ensures TallyRows(t, rows) == TallyRows(t, rows[..n])
    decreases |rows|
  {
    if n < |rows| {
      var init := rows[..|rows| - 1];
      assert init[..n] == rows[..n];
      TallyRowsStops(t, init, n);
    } else {
      assert rows[..n] == rows;
    }
  }

  /**
   * A row that raises leaves the tables well formed and the state table as it
   * was; the other three tables gain the same amount of total, at most one.
   */
  lemma LeftByRaiseEffect(t: Tables, row: string)
    requires WellFormed(t)
    ensures var r := LeftByRaise(t, row);
            WellFormed(r) && r.states == t.states
            && Total(t.remoteIp) <= Total(r.remoteIp) <= Total(t.remoteIp) + 1
            && Total(r.remoteIp) - Total(t.remoteIp) == Total(r.remotePort) - Total(t.remotePort) == Total(r.localPort) - Total(t.localPort)
  {
    var conn := Fields(row);
    if |conn| >= 3 {
      var remote := Split(conn[2], ':');
      if |remote| == 2 {
        var local := Split(conn[1], ':');
        if |local| != 2 {
          SetDefaultEffect(t.remoteIp, remote[0]);
          SetDefaultEffect(t.remotePort, remote[1]);
        } else {
          BumpEffect(t.remoteIp, remote[0]);
          BumpEffect(t.remotePort, remote[1]);
          BumpEffect(t.localPort, local[1]);
        }
      }
    }
  }

  /** When no row raises, the loop leaves the tally of all the rows. */
  lemma LoopTablesOfSuccess(t: Tables, rows: seq<string>)
    requires TallyRows(t, rows).Success?
    ensures LoopTables(t, rows) == TallyRows(t, rows).value
  {
  }

  /** Once a row raises, the rows after it change nothing. */
  lemma {:induction false} LoopTablesStops(t: Tables, rows: seq<string>, n: nat)
    requires n <= |rows| && TallyRows(t, rows[..n]).Failure?
    ensures LoopTables(t, rows) == LoopTables(t, rows[..n])
    decreases |rows|
  {
    if n < |rows| {
      var init := rows[..|rows| - 1];
      assert init[..n] == rows[..n];
      TallyRowsStops(t, init, n);
      LoopTablesStops(t, init, n);
    } else {
      assert rows[..n] == rows;
    }
  }

  /** The tables stay well formed through the loop, however it ends. */
  lemma {:induction false} LoopTablesWellFormed(t: Tables, rows: seq<string>)
    requires WellFormed(t)
    ensures WellFormed(LoopTables(t, rows))
    decreases |rows|
  {
    if |rows| > 0 {
      var init := rows[..|rows| - 1];
      var last := rows[|rows| - 1];
      match TallyRows(t, init)
      case Failure(_) =>
        LoopTablesWellFormed(t, init);
      case Success(t') =>
        TallyRowsTotals(t, init);
        match TallyRow(t', last)
        case Success(_) =>
          CountRowTotals(t', ParseRow(last).value);
        case Failure(_) =>
          LeftByRaiseEffect(t', last);
    }
  }

  /** Storing twice under one key keeps only the second value. */
  lemma StoreAgain(m: map<string, Tables>, k: string, a: Tables, b: Tables)
    ensures m[k := a][k := b] == m[k := b]
  {
  }

  /** The tables of a protocol, or empty ones when get_stats has not seen it yet. */
  function TablesOf(netStats: map<string, Tables>, proto: string): Tables
  {
    if proto in netStats then netStats[proto] else NoTables
  }

  /** Reading a second file into the same tables counts onto the first: a tally of the concatenation. */
  lemma {:induction false} TallyRowsAppend(t: Tables, a: seq<string>, b: seq<string>)
    ensures TallyRows(t, a + b) == match TallyRows(t, a)
      case Failure(e) => Failure(e)
      case Success(t') => TallyRows(t', b)
  {
    if |b| > 0 {
      assert (a + b)[..|a + b| - 1] == a + b[..|b| - 1];
      assert (a + b)[|a + b| - 1] == b[|b| - 1];
      TallyRowsAppend(t, a, b[..|b| - 1]);
    } else {
      assert a + b == a;
    }
  }

  /**
   * The body of the `for conn in stats` loop on one row. On success the four
   * counters of the row are raised; when the row raises, the tables keep the
   * zero entries and increments made before the failing read, as in the source.
   */
  method CountConnection(t: Tables, row: string) returns (t': Tables, err: Option<LineError>)
    ensures err.None? ==> TallyRow(t, row) == Success(t')
    ensures err.Some? ==> TallyRow(t, row) == Failure(err.value) && t' == LeftByRaise(t, row)
  {
    t' := t;
    var conn := Fields(row);
    if |conn| < 3 {
      return t', Some(TooFewColumns(row));
    }
    var remote := Split(conn[2], ':');
    if |remote| != 2 {
      return t', Some(NotAnAddress(conn[2]));
    }
    t' := t'.(remoteIp := SetDefault(t'.remoteIp, remote[0]), remotePort := SetDefault(t'.remotePort, remote[1]));
    var local := Split(conn[1], ':');
    if |local| != 2 {
      return t', Some(NotAnAddress(conn[1]));
    }
    t' := t'.(localPort := SetDefault(t'.localPort, local[1]));
    t' := t'.(remoteIp := Increment(t'.remoteIp, remote[0]), remotePort := Increment(t'.remotePort, remote[1]),
              localPort := Increment(t'.localPort, local[1]));
    BumpIsDefaultThenIncrement(t.remoteIp, remote[0]);
    BumpIsDefaultThenIncrement(t.remotePort, remote[1]);
    BumpIsDefaultThenIncrement(t.localPort, local[1]);
    if |conn| < 4 {
      return t', Some(TooFewColumns(row));
    }
    t' := t'.(states := Increment(SetDefault(t'.states, conn[3]), conn[3]));
    var k := RowKeys(remote[0], remote[1], local[1], conn[3]);
    BumpIsDefaultThenIncrement(t.states, k.state);
    assert ParseRow(row) == Success(k);
    assert t' == CountRow(t, k);
    err := None;
  }

  /**
   * The `for conn in stats` loop over the rows after the header. When a row
   * raises, the loop stops with the counts made so far.
   */
  method CountConnections(base: Tables, stats: seq<string>) returns (tables: Tables, err: Option<LineError>)
    ensures var r := TallyRows(base, stats);
            (r.Success? ==> err == None && tables == r.value) && (r.Failure? ==> err == Some(r.error))
    ensures tables == LoopTables(base, stats)
  {
    tables := base;
    var i := 0;
    while i < |stats|
      invariant 0 <= i <= |stats|
      invariant TallyRows(base, stats[..i]) == Success(tables)
    {
      var next, e := CountConnection(tables, stats[i]);
      if e.Some? {
        TallyRowsFails(base, stats, i, tables, e.value);
        TallyRowsStep(base, stats, i);
        LoopTablesStops(base, stats, i + 1);
        assert stats[..i + 1][..i] == stats[..i];
        return next, e;
      }
      TallyRowsGrows(base, stats, i, tables, next);
      tables := next;
      i := i + 1;
    }
    assert stats[..i] == stats;
    LoopTablesOfSuccess(base, stats);
    err := None;
  }

  // ---------------------------------------------------------------------------
  // Reporting one table
  // ---------------------------------------------------------------------------

  /** How many entries output_stats prints for a table of `n` keys and limit `limit`. */
  function Shown(n: nat, limit: int): (k: nat)
    ensures k <= n
    ensures limit > 0 ==> k <= limit
    ensures limit < 0 ==> k == 0
    ensures limit == 0 ==> k == n
    ensures limit > 0 && n >= limit ==> k == limit
    ensures limit > 0 && n < limit ==> k == n
  {
    if limit == 0 then n else if limit < 0 then 0 else if n < limit then n else limit
  }

  /**
   * The body of output_stats for one table: the total and unique figures of
   * its header line, and the (key, count) pairs it prints, in order.
   */
  method OutputTable(table: Tally<string>, limit: int) returns (total: nat, unique: nat, rows: Tally<string>)
    ensures total == Total(table) && unique == |table|
    ensures rows == SortByCount(table)[..Shown(|table|, limit)]
  {
    total := Total(table);
    unique := |table|;
    var sorted := SortByCount(table);
    rows := TakeShown(sorted, limit);
  }

  /** The printing loop of output_stats: entries are taken in order until the limit is passed. */
  method TakeShown(sorted: Tally<string>, limit: int) returns (rows: Tally<string>)
    ensures rows == sorted[..Shown(|sorted|, limit)]
  {
    ghost var n := Shown(|sorted|, limit);
    rows := [];
    var shown := 0;
    while shown < |sorted|
      invariant 0 <= shown <= n
      invariant rows == sorted[..shown]
    {
      if shown + 1 > limit && limit != 0 {
        break;
      }
      assert sorted[..shown + 1] == sorted[..shown] + [sorted[shown]];
      rows := rows + [sorted[shown]];
      shown := shown + 1;
    }
    assert shown == n;
  }

  /** What is printed for a table is its most frequent keys: every printed count is at least every unprinted one. */
  lemma ShownAreTop(table: Tally<string>, limit: int, i: nat, j: nat)
    requires i < Shown(|table|, limit) <= j < |table|
    ensures SortByCount(table)[i].1 >= SortByCount(table)[j].1
  {
    SortedByCount(table);
  }

  // ---------------------------------------------------------------------------
  // The program state
  // ---------------------------------------------------------------------------

  /** The module-level variables of connection_stats.py. */
  class ConnectionStats {
    var netStats: map<string, Tables>
    var protos: seq<string>
    var outputLimit: int

    /**
     * Every protocol's tables have distinct keys. A row that raises can leave
     * zero entries behind, so the counts need not be positive.
     */
    ghost predicate Valid()
      reads this
    {
      forall p :: p in netStats ==> WellFormed(netStats[p])
    }

    constructor ()
      ensures Valid()
      ensures netStats == map[] && protos == [] && outputLimit == DefaultLimit
    {
      netStats, protos, outputLimit := map[], [], DefaultLimit;
    }

    /** parse_args, given the `--ver` and `--limit` values; an error ends the program. */
    method ParseArgs(ver: Option<string>, limit: Option<string>) returns (err: Option<ArgError>)
      modifies this
      ensures netStats == old(netStats)
      ensures ProtocolsFor(ver).Failure? ==> err == Some(ProtocolsFor(ver).error) && protos == old(protos) && outputLimit == old(outputLimit)
      ensures ProtocolsFor(ver).Success? ==> protos == ProtocolsFor(ver).value
      ensures ProtocolsFor(ver).Success? && OutputLimitFor(limit).Failure? ==> err == Some(OutputLimitFor(limit).error) && outputLimit == old(outputLimit)
      ensures ProtocolsFor(ver).Success? && OutputLimitFor(limit).Success? ==> err == None && outputLimit == OutputLimitFor(limit).value
    {
      match ProtocolsFor(ver)
      case Failure(e) =>
        return Some(e);
      case Success(ps) =>
        protos := ps;
      match OutputLimitFor(limit)
      case Failure(e) =>
        return Some(e);
      case Success(n) =>
        outputLimit := n;
      return None;
    }

    /**
     * get_stats(proto) given the lines of /proc/net/<proto>, or None when that
     * file cannot be opened: creates the tables of `proto` if absent, then
     * opens the file, drops the header line and counts every other row.
     */
    method GetStats(proto: string, content: Option<seq<string>>) returns (err: Option<StatsError>)
      requires Valid()
      modifies this
      ensures Valid()
      ensures protos == old(protos) && outputLimit == old(outputLimit)
      ensures content.None? ==> err == Some(CannotOpen("/proc/net/" + proto))
                                && netStats == old(netStats)[proto := TablesOf(old(netStats), proto)]
      ensures content.Some? ==>
                netStats == old(netStats)[proto := LoopTables(TablesOf(old(netStats), proto), DataRows(content.value))]
      ensures content.Some? ==>
                var r := TallyRows(TablesOf(old(netStats), proto), DataRows(content.value));
                (r.Success? ==> err == None && netStats[proto] == r.value) && (r.Failure? ==> err == Some(RowRaised(r.error)))
    {
      if proto !in netStats {
        netStats := netStats[proto := NoTables];
      }
      if content.None? {
        return Some(CannotOpen("/proc/net/" + proto));
      }
      var tables, rowErr := CountConnections(netStats[proto], DataRows(content.value));
      StoreAgain(old(netStats), proto, NoTables, tables);
      LoopTablesWellFormed(TablesOf(old(netStats), proto), DataRows(content.value));
      netStats := netStats[proto := tables];
      err := if rowErr.Some? then Some(RowRaised(rowErr.value)) else None;
    }
  }
}
