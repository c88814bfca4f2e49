/**
 * lsod: a census of open file descriptors under /proc.
 *
 * For every process whose /proc/<pid>/fd directory is non-empty, the tool
 * reads each descriptor's link target, classifies it (socket, pipe, device
 * file, ...) and counts it per process, per type and in grand totals; with
 * `--threads` it also counts the descriptors seen through each task of the
 * process, per task command name. It then prints the processes with the most
 * descriptors.
 *
 * The file system is a snapshot value `ProcFs`: the directory listings
 * `os.scandir` would return, the contents `open(...).read()` would return, the
 * targets `os.readlink` would return and the paths `os.path.isfile` accepts. A
 * path missing from a map is a call that raises.
 */
module Lsod {
  import opened Wrappers
  import opened Text
  import opened Counts

  // ---------------------------------------------------------------------------
  // The /proc snapshot
  // ---------------------------------------------------------------------------

  datatype DirEntry = DirEntry(name: string, isDir: bool, isSymlink: bool)

  /**
   * A snapshot of the files lsod reads. A directory is keyed by one spelling
   * of its path: an fd directory always with its trailing slash, `.../fd/`,
   * which is also the directory get_pids tests as `.../fd`.
   */
  datatype ProcFs = ProcFs(
    dirs: map<string, seq<DirEntry>>,
    files: map<string, string>,
    links: map<string, string>,
    regularFiles: set<string>)

  /** A descriptor whose link could be read: the entry's path and the link target. */
  datatype Fd = Fd(path: string, target: string)

  /** `any(os.scandir(dir))`: the directory can be listed and has an entry. */
  predicate HasEntries(fs: ProcFs, dir: string)
  {
    dir in fs.dirs && |fs.dirs[dir]| > 0
  }

  // ---------------------------------------------------------------------------
  // get_fd_type
  // ---------------------------------------------------------------------------

  /** The keys of `totals`, in the order the dictionary literal lists them. */
  const FdTypeNames: seq<string> := ["socket", "anon_inode", "pipe", "dev", "sys", "run", "proc", "file", "unknown"]

  /** The substrings get_fd_type tests, in its order, each with the type it selects. */
  const Markers: seq<(string, string)> := [
    ("socket:", "socket"), ("anon_inode:", "anon_inode"), ("/dev/", "dev"), ("pipe:", "pipe"),
    ("/sys/", "sys"), ("/run/", "run"), ("/proc/", "proc")]

  /** The first of `Markers[from..]` that `link` contains, or `|Markers|` when none does. */
  function FirstMarker(link: string, from: nat): (r: nat)
    requires from <= |Markers|
    ensures from <= r <= |Markers|
    ensures forall j :: from <= j < r ==> !Contains(link, Markers[j].0)
    ensures r < |Markers| ==> Contains(link, Markers[r].0)
    decreases |Markers| - from
  {
    if from == |Markers| then from
    else if Contains(link, Markers[from].0) then from
    else FirstMarker(link, from + 1)
  }

  /**
   * get_fd_type: the type of the first marker the link target contains; when
   * it contains none, `isFile` (`os.path.isfile(link)`) chooses between
   * "file" and "unknown".
   */
  function FdType(link: string, isFile: bool): (r: string)
    ensures r in FdTypeNames
  {
    var m := FirstMarker(link, 0);
    if m < |Markers| then
      assert Markers[m].1 == FdTypeNames[[0, 1, 3, 2, 4, 5, 6][m]];
      Markers[m].1
    else if isFile then "file"
    else "unknown"
  }

  /** get_fd_type tests the markers one after another, in this order. */
  lemma FdTypeTestsInOrder(link: string, isFile: bool)
    ensures FdType(link, isFile) ==
      if Contains(link, "socket:") then "socket"
      else if Contains(link, "anon_inode:") then "anon_inode"
      else if Contains(link, "/dev/") then "dev"
      else if Contains(link, "pipe:") then "pipe"
      else if Contains(link, "/sys/") then "sys"
      else if Contains(link, "/run/") then "run"
      else if Contains(link, "/proc/") then "proc"
      else if isFile then "file"
      else "unknown"
  {
    assert FirstMarker(link, 0) == (if Contains(link, "socket:") then 0 else FirstMarker(link, 1));
    assert FirstMarker(link, 1) == (if Contains(link, "anon_inode:") then 1 else FirstMarker(link, 2));
    assert FirstMarker(link, 2) == (if Contains(link, "/dev/") then 2 else FirstMarker(link, 3));
    assert FirstMarker(link, 3) == (if Contains(link, "pipe:") then 3 else FirstMarker(link, 4));
    assert FirstMarker(link, 4) == (if Contains(link, "/sys/") then 4 else FirstMarker(link, 5));
    assert FirstMarker(link, 5) == (if Contains(link, "/run/") then 5 else FirstMarker(link, 6));
    assert FirstMarker(link, 6) == (if Contains(link, "/proc/") then 6 else FirstMarker(link, 7));
  }

  /** The kind of a readable descriptor, with `isfile` read from the snapshot. */
  function KindOf(fs: ProcFs, fd: Fd): string
  {
    FdType(fd.target, fd.target in fs.regularFiles)
  }

  // ---------------------------------------------------------------------------
  // get_taskid, get_comm, get_ppid
  // ---------------------------------------------------------------------------

  /**
   * The text between "/task/" and the next "/fd/". When "/task/" is missing
   * `find` gives -1 and the slice starts at 5; when "/fd/" is missing the
   * slice ends one before the end, as Python's `s[a:-1]` does.
   */
  function TaskId(s: string): string
  {
    var start := Find(s, "/task/", 0) + 6;
    Slice(s, start, Find(s, "/fd/", start))
  }

  /** In "/proc/<pid>/task/...", the first "/task/" follows the pid. */
  lemma FindTaskMarker(pid: string, rest: string)
    requires IsDigits(pid)
    ensures Find("/proc/" + pid + "/task/" + rest, "/task/", 0) == 6 + |pid|
  {
    var head := "/proc/" + pid;
    var s := head + "/task/" + rest;
    assert s == "/proc/" + pid + "/task/" + rest;
    var a := |head|;
    assert OccursAt(s, "/task/", a) by { assert s[a..a + 6] == "/task/"; }
    forall j | 0 <= j < a ensures !OccursAt(s, "/task/", j) {
      assert s[j + 1] != 't' by {
        if j + 1 < 6 {
          assert s[j + 1] == "/proc/"[j + 1];
        } else if j + 1 < a {
          assert s[j + 1] == pid[j + 1 - 6];
        } else {
          assert s[j + 1] == "/task/"[0];
        }
      }
      if j + 6 <= |s| { assert s[j..j + 6][1] == s[j + 1]; }
    }
    FindIsFirst(s, "/task/", 0, a);
  }

  /** From the start of "<tid>/fd/...", the first "/fd/" follows the task id. */
  lemma FindFdMarker(s: string, start: nat, tid: string, fd: string)
    requires IsDigits(tid) && start <= |s| && s[start..] == tid + "/fd/" + fd
    ensures Find(s, "/fd/", start) == start + |tid|
  {
    var b := start + |tid|;
    assert OccursAt(s, "/fd/", b) by { assert s[b..b + 4] == s[start..][|tid|..|tid| + 4] == "/fd/"; }
    forall j | start <= j < b ensures !OccursAt(s, "/fd/", j) {
      assert s[j] != '/' by { assert s[j] == s[start..][j - start] == tid[j - start]; }
      if j + 4 <= |s| { assert s[j..j + 4][0] == s[j]; }
    }
    FindIsFirst(s, "/fd/", start, b);
  }

  /** For a task's descriptor path, get_taskid returns the task id. */
  lemma TaskIdOfFdPath(pid: string, tid: string, fd: string)
    requires IsDigits(pid) && IsDigits(tid)
    ensures TaskId("/proc/" + pid + "/task/" + tid + "/fd/" + fd) == tid
  {
    var tail := tid + "/fd/" + fd;
    var s := "/proc/" + pid + "/task/" + tail;
    assert s == "/proc/" + pid + "/task/" + tid + "/fd/" + fd;
    FindTaskMarker(pid, tail);
    var start := 6 + |pid| + 6;
    assert s[start..] == tail;
    FindFdMarker(s, start, tid, fd);
    assert s[start..start + |tid|] == tid;
  }

  /** The example in get_taskid's docstring. */
  lemma ExampleTaskId(path: string)
    requires path == "/proc/10067/task/15335/fd/55"
    ensures TaskId(path) == "15335"
  {
    var pid, tid := "10067", "15335";
    assert IsDigits(pid) && IsDigits(tid);
    assert path == "/proc/" + pid + "/task/" + tid + "/fd/" + "55";
    TaskIdOfFdPath(pid, tid, "55");
  }

  /**
   * get_comm: the newline-free contents of `<path>/comm`, or of
   * /proc/<pid>/comm when no path is given; "unknown" when it cannot be read.
   */
  function GetComm(fs: ProcFs, pid: string, path: string): string
  {
    var file := if |path| > 0 then path + "/comm" else "/proc/" + pid + "/comm";
    if file in fs.files then RemoveNewlines(fs.files[file]) else "unknown"
  }

  /** The command name of the task whose descriptor path is `fdPath`. */
  function ThreadComm(fs: ProcFs, pid: string, fdPath: string): string
  {
    GetComm(fs, pid, "/proc/" + pid + "/task/" + TaskId(fdPath))
  }

  /** get_ppid's reading of /proc/<pid>/stat as written: its fourth whitespace-separated field. */
  function SplitPpid(stat: string): string
  {
    var data := Fields(RemoveNewlines(stat));
    if |data| > 3 then data[3] else "unknown"
  }

  /**
   * The parent pid as proc(5) lays out /proc/<pid>/stat: the command name is
   * parenthesised and may hold spaces and ')', so the fields are counted from
   * the last ')' on: the state, then the parent pid.
   */
  function StatPpid(stat: string): string
  {
    match PpidAfterClose(RemoveNewlines(stat))
    case Some(ppid) => ppid
    case None => "unknown"
  }

  /** The second whitespace-separated field of `s`, if there is one. */
  function SecondField(s: string): Option<string>
  {
    var data := Fields(s);
    if |data| > 1 then Some(data[1]) else None
  }

  /** The second field after the last ')' of a newline-free stat line, if there is one. */
  function PpidAfterClose(s: string): Option<string>
  {
    PpidAt(s, LastIndexOf(s, ')'))
  }

  /** The second field after position `close`, or None when there is no ')' (`close` is -1). */
  function PpidAt(s: string, close: int): Option<string>
    requires -1 <= close < |s|
  {
    if close < 0 then None else SecondField(s[close + 1..])
  }

  /** The stat line the kernel writes: `pid (comm) state ppid rest...` and a newline. */
  function StatLine(pid: string, comm: string, state: string, ppid: string, rest: seq<string>): string
  {
    StatHead(pid, comm) + " " + Unwords([state, ppid] + rest) + "\n"
  }

  function StatHead(pid: string, comm: string): string
  {
    pid + " (" + comm + ")"
  }

  /** Fields after the command name: no whitespace and no ')'. */
  predicate PlainWords(ws: seq<string>)
  {
    forall i :: 0 <= i < |ws| ==> IsWord(ws[i]) && ')' !in ws[i]
  }

  lemma StatHeadShape(pid: string, comm: string)
    requires IsDigits(pid) && '\n' !in comm
    ensures var h := StatHead(pid, comm); |h| > 0 && h[|h| - 1] == ')' && '\n' !in h
  {
    var h := StatHead(pid, comm);
    assert h == (pid + " (" + comm) + ")";
    forall k | 0 <= k < |h| ensures h[k] != '\n' {
      if k < |pid| {
        assert h[k] == pid[k];
      } else if k < |pid| + 2 {
        assert h[k] == " ("[k - |pid|];
      } else if k < |pid| + 2 + |comm| {
        assert h[k] == comm[k - |pid| - 2];
      } else {
        assert h[k] == ')';
      }
    }
  }

  /** In `head + " " + u`, with `head` ending in ')' and none in `u`, the last ')' ends `head`. */
  lemma CutAtLastClose(head: string, u: string)
    requires |head| > 0 && head[|head| - 1] == ')' && ')' !in u
    ensures LastIndexOf(head + " " + u, ')') == |head| - 1
    ensures (head + " " + u)[|head|..] == [' '] + u
  {
    var s := head + " " + u;
    assert s[|head| - 1] == ')';
    forall j | |head| - 1 < j < |s| ensures s[j] != ')' {
      if j > |head| {
        assert s[j] == u[j - |head| - 1];
      }
    }
    LastIndexOfIsLast(s, ')');
  }

  lemma JoinedNoNewline(head: string, u: string)
    requires '\n' !in head && '\n' !in u
    ensures '\n' !in head + " " + u
  {
    var s := head + " " + u;
    forall k | 0 <= k < |s| ensures s[k] != '\n' {
      if k < |head| {
        assert s[k] == head[k];
      } else if k > |head| {
        assert s[k] == u[k - |head| - 1];
      }
    }
  }

  /** Reading after the last ')' finds the parent pid whatever the command name holds. */
  lemma StatPpidOfStatLine(pid: string, comm: string, state: string, ppid: string, rest: seq<string>)
    requires IsDigits(pid) && '\n' !in comm
    requires PlainWords([state, ppid] + rest)
    ensures StatPpid(StatLine(pid, comm, state, ppid, rest)) == ppid
  {
    var ws := [state, ppid] + rest;
    var head := StatHead(pid, comm);
    var u := Unwords(ws);
    WordsJoin(ws);
    NotInUnwords(ws, ')');
    StatHeadShape(pid, comm);
    JoinedNoNewline(head, u);
    DropFinalNewline(head + " " + u);
    assert StatLine(pid, comm, state, ppid, rest) == head + " " + u + "\n";
    PpidOfJoined(head, u);
  }

  /** Past the last `)` of the head, the second field is read from the words after it. */
  lemma PpidOfJoined(head: string, u: string)
    requires |head| > 0 && head[|head| - 1] == ')' && ')' !in u
    ensures PpidAfterClose(head + " " + u) == SecondField(u)
  {
    var joined := head + " " + u;
    CutAtLastClose(head, u);
    FieldsAfterSpace(' ', u);
    assert PpidAfterClose(joined) == PpidAt(joined, |head| - 1);
    assert PpidAt(joined, |head| - 1) == SecondField([' '] + u);
  }

  /** The command name in parentheses, as one field when it holds no whitespace. */
  lemma ParenthesisedWord(comm: string)
    requires IsWord(comm)
    ensures IsWord("(" + comm + ")")
  {
    var w := "(" + comm + ")";
    forall k | 0 <= k < |w| ensures !IsSpace(w[k]) {
      if 0 < k < |w| - 1 {
        assert w[k] == comm[k - 1];
      }
    }
  }

  /** The two readings agree on a command name without whitespace. */
  lemma SplitPpidOfPlainComm(pid: string, comm: string, state: string, ppid: string, rest: seq<string>)
    requires IsDigits(pid) && IsWord(comm)
    requires PlainWords([state, ppid] + rest)
    ensures SplitPpid(StatLine(pid, comm, state, ppid, rest)) == ppid
  {
    var tail := [state, ppid] + rest;
    var ws := [pid, "(" + comm + ")"] + tail;
    assert ws[1..] == ["(" + comm + ")"] + tail && ws[2..] == tail;
    assert Unwords(ws) == StatHead(pid, comm) + " " + Unwords(tail);
    ParenthesisedWord(comm);
    forall i | 0 <= i < |ws| ensures IsWord(ws[i]) {
      if i >= 2 {
        assert ws[i] == tail[i - 2];
      }
    }
    WordsJoin(ws);
    DropFinalNewline(Unwords(ws));
  }

  /** get_ppid as written reads the fourth whitespace-separated field. */
  lemma SplitPpidReadsFourth(stat: string, ws: seq<string>)
    requires forall i :: 0 <= i < |ws| ==> IsWord(ws[i])
    requires stat == Unwords(ws) + "\n" && |ws| > 3
    ensures SplitPpid(stat) == ws[3]
  {
    WordsJoin(ws);
    DropFinalNewline(Unwords(ws));
  }

  /** `a + b` has no whitespace when neither part has. */
  lemma NoSpaceConcat(a: string, b: string)
    requires NoSpace(a) && NoSpace(b)
    ensures NoSpace(a + b)
  {
    var w := a + b;
    forall k | 0 <= k < |w| ensures !IsSpace(w[k]) {
      if k >= |a| {
        assert w[k] == b[k - |a|];
      }
    }
  }

  /**
   * A command name holding a space splits into two fields, which shifts the
   * rest: get_ppid as written returns the state letter instead of the parent.
   */
  lemma SplitPpidOfSpacedComm(pid: string, first: string, second: string, state: string, ppid: string, rest: seq<string>)
    requires IsDigits(pid) && IsWord(first) && IsWord(second)
    requires PlainWords([state, ppid] + rest)
    ensures SplitPpid(StatLine(pid, first + " " + second, state, ppid, rest)) == state
  {
    var tail := [state, ppid] + rest;
    var open, close := "(" + first, second + ")";
    var ws := [pid, open, close] + tail;
    assert ws[1..] == [open, close] + tail && ws[2..] == [close] + tail && ws[3..] == tail;
    assert Unwords(ws[2..]) == close + " " + Unwords(tail);
    assert Unwords(ws[1..]) == open + " " + Unwords(ws[2..]);
    assert Unwords(ws) == pid + " " + Unwords(ws[1..]);
    assert Unwords(ws) == StatHead(pid, first + " " + second) + " " + Unwords(tail);
    NoSpaceConcat("(", first);
    NoSpaceConcat(second, ")");
    forall i | 0 <= i < |ws| ensures IsWord(ws[i]) {
      if i >= 3 {
        assert ws[i] == tail[i - 3];
      }
    }
    SplitPpidReadsFourth(StatLine(pid, first + " " + second, state, ppid, rest), ws);
  }

  /** The command name "Web Content": get_ppid as written returns "S" where the parent pid is 7. */
  lemma SplitPpidMisreadsSpacedComm(line: string)
    requires line == StatLine("1", "Web Content", "S", "7", [])
    ensures SplitPpid(line) == "S"
    ensures StatPpid(line) == "7"
  {
    var first, second := "Web", "Content";
    assert first + " " + second == "Web Content";
    assert IsDigits("1") && IsWord(first) && IsWord(second);
    assert PlainWords(["S", "7"] + []);
    SplitPpidOfSpacedComm("1", first, second, "S", "7", []);
    StatPpidOfStatLine("1", "Web Content", "S", "7", []);
  }

  /** get_ppid as written: the fourth field of /proc/<pid>/stat, "unknown" when it cannot be read. */
  function GetPpid(fs: ProcFs, pid: string): string
  {
    var file := "/proc/" + pid + "/stat";
    if file in fs.files then SplitPpid(fs.files[file]) else "unknown"
  }

  // ---------------------------------------------------------------------------
  // get_pids
  // ---------------------------------------------------------------------------

  /** Whether get_pids lists the entry `e` of directory `path`. */
  predicate Keeps(fs: ProcFs, path: string, selfPid: string, includeSelf: bool, e: DirEntry)
  {
    (includeSelf || e.name != selfPid) && e.isDir && IsDigits(e.name)
    && HasEntries(fs, path + "/" + e.name + "/fd/")
  }

  /** The names get_pids keeps from the entries `es`, in listing order. */
  function Kept(fs: ProcFs, path: string, selfPid: string, includeSelf: bool, es: seq<DirEntry>): seq<string>
  {
    if |es| == 0 then []
    else
      var e := es[|es| - 1];
      Kept(fs, path, selfPid, includeSelf, es[..|es| - 1]) + if Keeps(fs, path, selfPid, includeSelf, e) then [e.name] else []
  }

  /** get_pids(path): None when `path` cannot be listed. */
  function ListPids(fs: ProcFs, path: string, selfPid: string, includeSelf: bool): Option<seq<string>>
  {
    if path in fs.dirs then Some(Kept(fs, path, selfPid, includeSelf, fs.dirs[path])) else None
  }

  /**
   * A name is kept exactly when some entry with that name is a directory with
   * an all-digit name and a non-empty fd directory, and it is not the tool's
   * own pid unless `includeSelf`.
   */
  lemma {:induction false} KeptExactly(fs: ProcFs, path: string, selfPid: string, includeSelf: bool, es: seq<DirEntry>)
    ensures forall x :: x in Kept(fs, path, selfPid, includeSelf, es) ==>
      IsDigits(x) && (includeSelf || x != selfPid) && HasEntries(fs, path + "/" + x + "/fd/")
    ensures forall x :: x in Kept(fs, path, selfPid, includeSelf, es) <==>
      exists i :: 0 <= i < |es| && es[i].name == x && Keeps(fs, path, selfPid, includeSelf, es[i])
  {
    if |es| > 0 {
      var init := es[..|es| - 1];
      KeptExactly(fs, path, selfPid, includeSelf, init);
      forall x ensures x in Kept(fs, path, selfPid, includeSelf, es) <==>
        exists i :: 0 <= i < |es| && es[i].name == x && Keeps(fs, path, selfPid, includeSelf, es[i])
      {
        if x in Kept(fs, path, selfPid, includeSelf, init) {
          var i :| 0 <= i < |init| && init[i].name == x && Keeps(fs, path, selfPid, includeSelf, init[i]);
          assert es[i] == init[i];
        }
        if exists i :: 0 <= i < |es| && es[i].name == x && Keeps(fs, path, selfPid, includeSelf, es[i]) {
          var i :| 0 <= i < |es| && es[i].name == x && Keeps(fs, path, selfPid, includeSelf, es[i]);
          if i < |init| { assert init[i] == es[i]; }
        }
      }
    }
  }

  /** `pid_score[name] = 0` for each listed name, in order. */
  function ZeroScores(c: Tally<string>, names: seq<string>): Tally<string>
  {
    if |names| == 0 then c else Put(ZeroScores(c, names[..|names| - 1]), names[|names| - 1], 0)
  }

  /** Listing /proc gives every listed pid a score entry of 0 and touches no other entry. */
  lemma {:induction false} ZeroScoresEffect(c: Tally<string>, names: seq<string>)
    requires Distinct(c)
    ensures Distinct(ZeroScores(c, names))
    ensures forall p :: CountOf(ZeroScores(c, names), p) == if p in names then 0 else CountOf(c, p)
    ensures forall p :: p in Keys(ZeroScores(c, names)) <==> p in names || p in Keys(c)
    ensures Total(ZeroScores(c, names)) <= Total(c)
  {
    if |names| > 0 {
      var init := names[..|names| - 1];
      var last := names[|names| - 1];
      assert names == init + [last];
      ZeroScoresEffect(c, init);
      PutEffect(ZeroScores(c, init), last, 0);
      PutKeysGrow(ZeroScores(c, init), last, 0);
    }
  }

  lemma KeptStep(fs: ProcFs, path: string, selfPid: string, includeSelf: bool, es: seq<DirEntry>, i: nat)
    requires i < |es|
    ensures Kept(fs, path, selfPid, includeSelf, es[..i + 1]) ==
      Kept(fs, path, selfPid, includeSelf, es[..i]) + if Keeps(fs, path, selfPid, includeSelf, es[i]) then [es[i].name] else []
  {
    assert es[..i + 1][..i] == es[..i];
  }

  lemma ZeroScoresStep(c: Tally<string>, names: seq<string>, x: string)
    ensures ZeroScores(c, names + [x]) == Put(ZeroScores(c, names), x, 0)
  {
    assert (names + [x])[..|names|] == names;
  }

  // ---------------------------------------------------------------------------
  // The counters get_stats updates
  // ---------------------------------------------------------------------------

  /** Options the census reads (set by the command line; `max_workers` is not modelled). */
  datatype Config = Config(maxPids: int, showThreads: bool, maxThreads: int, includeSelf: bool)

  const DefaultConfig := Config(10, false, 5, false)

  /** `pid_extra[pid]`: the "comm" and "ppid" keys, absent until a process descriptor is read. */
  datatype Extra = Extra(comm: Option<string>, ppid: Option<string>)

  /** The five module-level dictionaries. */
  datatype Counters = Counters(
    pidScore: Tally<string>,
    pidStats: map<string, Tally<string>>,
    pidExtra: map<string, Extra>,
    pidThreads: map<string, Tally<string>>,
    totals: Tally<string>)

  const InitialTotals: Tally<string> := [
    ("socket", 0), ("anon_inode", 0), ("pipe", 0), ("dev", 0), ("sys", 0),
    ("run", 0), ("proc", 0), ("file", 0), ("unknown", 0)]

  const NoCounters := Counters([], map[], map[], map[], InitialTotals)

  /** `d.get(pid)` for a dictionary of dictionaries, with an empty one when absent. */
  function TallyOf(m: map<string, Tally<string>>, pid: string): Tally<string>
  {
    if pid in m then m[pid] else []
  }

  function ExtraOf(m: map<string, Extra>, pid: string): Extra
  {
    if pid in m then m[pid] else Extra(None, None)
  }

  /** What get_stats needs before counting for `pid`: its score entry and every type key of `totals`. */
  predicate Ready(c: Counters, pid: string)
  {
    pid in Keys(c.pidScore) && forall t :: t in FdTypeNames ==> t in Keys(c.totals)
  }

  /**
   * The agreements the accounting keeps: each pid's per-type counts add up to
   * its score, its per-thread counts to at most its score, and the grand
   * totals to the sum of all scores.
   */
  ghost predicate Consistent(c: Counters)
  {
    && Distinct(c.pidScore) && Distinct(c.totals)
    && (forall p :: p in c.pidStats ==> Distinct(c.pidStats[p]))
    && (forall p :: p in c.pidThreads ==> Distinct(c.pidThreads[p]))
    && (forall p :: Total(TallyOf(c.pidStats, p)) == CountOf(c.pidScore, p))
    && (forall p :: Total(TallyOf(c.pidThreads, p)) <= CountOf(c.pidScore, p))
    && Total(c.totals) == Total(c.pidScore)
  }

  /**
   * What the loop body reads for one descriptor whose link was read: its
   * type, the comm and ppid it records when scanning a process, and the
   * thread name it tallies when scanning a task with threads shown.
   */
  datatype Reading = Reading(kind: string, extra: Option<Extra>, thread: Option<string>)

  function ReadingOf(fs: ProcFs, cfg: Config, pid: string, isProcess: bool, fd: Fd): (rd: Reading)
    ensures rd.kind in FdTypeNames
    ensures rd.extra.Some? <==> isProcess
    ensures rd.thread.Some? <==> !isProcess && cfg.showThreads
  {
    Reading(
      KindOf(fs, fd),
      if isProcess then Some(Extra(Some(GetComm(fs, pid, "")), Some(GetPpid(fs, pid)))) else None,
      if !isProcess && cfg.showThreads then Some(ThreadComm(fs, pid, fd.path)) else None)
  }

  /** The accounting of one reading for `pid`. */
  function Tick(c: Counters, pid: string, rd: Reading): (r: Counters)
    requires pid in Keys(c.pidScore) && rd.kind in Keys(c.totals)
    ensures Keys(r.pidScore) == Keys(c.pidScore) && Keys(r.totals) == Keys(c.totals)
  {
    Counters(
      Increment(c.pidScore, pid),
      c.pidStats[pid := Bump(TallyOf(c.pidStats, pid), rd.kind)],
      c.pidExtra[pid := if rd.extra.Some? then rd.extra.value else ExtraOf(c.pidExtra, pid)],
      if rd.thread.Some? then c.pidThreads[pid := Bump(TallyOf(c.pidThreads, pid), rd.thread.value)] else c.pidThreads,
      Increment(c.totals, rd.kind))
  }

  /** The body of get_stats' loop for one descriptor whose link was read. */
  function CountFd(c: Counters, fs: ProcFs, cfg: Config, pid: string, isProcess: bool, fd: Fd): (r: Counters)
    requires Ready(c, pid)
    ensures Keys(r.pidScore) == Keys(c.pidScore) && Keys(r.totals) == Keys(c.totals)
  {
    Tick(c, pid, ReadingOf(fs, cfg, pid, isProcess, fd))
  }

  /** The loop over the readable descriptors `fds`, in order. */
  function CountFds(c: Counters, fs: ProcFs, cfg: Config, pid: string, isProcess: bool, fds: seq<Fd>): (r: Counters)
    requires Ready(c, pid)
    ensures Keys(r.pidScore) == Keys(c.pidScore) && Keys(r.totals) == Keys(c.totals)
  {
    if |fds| == 0 then c
    else CountFd(CountFds(c, fs, cfg, pid, isProcess, fds[..|fds| - 1]), fs, cfg, pid, isProcess, fds[|fds| - 1])
  }

  lemma CountFdsStep(c: Counters, fs: ProcFs, cfg: Config, pid: string, isProcess: bool, fds: seq<Fd>, more: seq<Fd>)
    requires Ready(c, pid) && |more| <= 1
    ensures Ready(CountFds(c, fs, cfg, pid, isProcess, fds), pid)
    ensures CountFds(c, fs, cfg, pid, isProcess, fds + more) ==
      if |more| == 0 then CountFds(c, fs, cfg, pid, isProcess, fds)
      else CountFd(CountFds(c, fs, cfg, pid, isProcess, fds), fs, cfg, pid, isProcess, more[0])
  {
    if |more| == 0 {
      assert fds + more == fds;
    } else {
      assert (fds + more)[..|fds|] == fds;
    }
  }

  lemma LinksStep(fs: ProcFs, dir: string, es: seq<DirEntry>, i: nat)
    requires i < |es|
    ensures Links(fs, dir, es[..i + 1]) == Links(fs, dir, es[..i]) + LinkAt(fs, dir, es[i])
  {
    assert es[..i + 1][..i] == es[..i];
  }

  /** A readable symlink among a directory's entries is counted. */
  lemma LinkCounted(base: Counters, fs: ProcFs, cfg: Config, pid: string, isProcess: bool, dir: string, es: seq<DirEntry>, i: nat)
    requires Ready(base, pid) && i < |es| && es[i].isSymlink && dir + es[i].name in fs.links
    ensures var before := CountFds(base, fs, cfg, pid, isProcess, Links(fs, dir, es[..i]));
      var path := dir + es[i].name;
      && Ready(before, pid)
      && CountFds(base, fs, cfg, pid, isProcess, Links(fs, dir, es[..i + 1])) == CountFd(before, fs, cfg, pid, isProcess, Fd(path, fs.links[path]))
  {
    LinksStep(fs, dir, es, i);
    CountFdsStep(base, fs, cfg, pid, isProcess, Links(fs, dir, es[..i]), LinkAt(fs, dir, es[i]));
  }

  /** Any other entry is skipped. */
  lemma LinkSkipped(base: Counters, fs: ProcFs, cfg: Config, pid: string, isProcess: bool, dir: string, es: seq<DirEntry>, i: nat)
    requires Ready(base, pid) && i < |es| && !(es[i].isSymlink && dir + es[i].name in fs.links)
    ensures CountFds(base, fs, cfg, pid, isProcess, Links(fs, dir, es[..i + 1])) == CountFds(base, fs, cfg, pid, isProcess, Links(fs, dir, es[..i]))
  {
    LinksStep(fs, dir, es, i);
    CountFdsStep(base, fs, cfg, pid, isProcess, Links(fs, dir, es[..i]), LinkAt(fs, dir, es[i]));
  }

  /** How many of `fds` are classified as `kind`. */
  function CountKind(fs: ProcFs, fds: seq<Fd>, kind: string): nat
  {
    if |fds| == 0 then 0
    else CountKind(fs, fds[..|fds| - 1], kind) + if KindOf(fs, fds[|fds| - 1]) == kind then 1 else 0
  }

  lemma {:induction false} CountKindAppend(fs: ProcFs, a: seq<Fd>, b: seq<Fd>)
    ensures forall kind :: CountKind(fs, a + b, kind) == CountKind(fs, a, kind) + CountKind(fs, b, kind)
  {
    if |b| == 0 {
      assert a + b == a;
    } else {
      assert (a + b)[..|a + b| - 1] == a + b[..|b| - 1];
      assert (a + b)[|a + b| - 1] == b[|b| - 1];
      CountKindAppend(fs, a, b[..|b| - 1]);
    }
  }

  /** The readings of `fds`, in order. */
  function Readings(fs: ProcFs, cfg: Config, pid: string, isProcess: bool, fds: seq<Fd>): (rs: seq<Reading>)
    ensures |rs| == |fds|
    ensures forall i :: 0 <= i < |fds| ==> rs[i] == ReadingOf(fs, cfg, pid, isProcess, fds[i])
  {
    if |fds| == 0 then []
    else Readings(fs, cfg, pid, isProcess, fds[..|fds| - 1]) + [ReadingOf(fs, cfg, pid, isProcess, fds[|fds| - 1])]
  }

  /** Every reading's type has its key in `totals`. */
  predicate KindsKnown(c: Counters, rs: seq<Reading>)
  {
    forall i :: 0 <= i < |rs| ==> rs[i].kind in Keys(c.totals)
  }

  /** The accounting of `rs`, in order. */
  function Ticks(c: Counters, pid: string, rs: seq<Reading>): (r: Counters)
    requires pid in Keys(c.pidScore) && KindsKnown(c, rs)
    ensures Keys(r.pidScore) == Keys(c.pidScore) && Keys(r.totals) == Keys(c.totals)
  {
    if |rs| == 0 then c
    else Tick(Ticks(c, pid, rs[..|rs| - 1]), pid, rs[|rs| - 1])
  }

  /** How many of `rs` have type `kind`. */
  function KindCount(rs: seq<Reading>, kind: string): nat
  {
    if |rs| == 0 then 0
    else KindCount(rs[..|rs| - 1], kind) + if rs[|rs| - 1].kind == kind then 1 else 0
  }

  /**
   * One reading raises the pid's score, its count of the reading's type and
   * the grand total of that type by exactly one, changes no other score,
   * total or pid's types, and keeps the accounting consistent.
   */
  lemma TickEffect(c: Counters, pid: string, rd: Reading, r: Counters)
    requires pid in Keys(c.pidScore) && rd.kind in Keys(c.totals) && Consistent(c)
    requires r == Tick(c, pid, rd)
    ensures Consistent(r)
    ensures forall p :: CountOf(r.pidScore, p) == CountOf(c.pidScore, p) + if p == pid then 1 else 0
    ensures forall t :: CountOf(r.totals, t) == CountOf(c.totals, t) + if t == rd.kind then 1 else 0
    ensures forall t :: CountOf(TallyOf(r.pidStats, pid), t) == CountOf(TallyOf(c.pidStats, pid), t) + if t == rd.kind then 1 else 0
    ensures forall p :: p != pid ==> TallyOf(r.pidStats, p) == TallyOf(c.pidStats, p)
  {
    IncrementEffect(c.pidScore, pid);
    IncrementEffect(c.totals, rd.kind);
    StatsStep(c.pidStats, c.pidScore, pid, rd.kind);
    ThreadsStep(c.pidThreads, c.pidScore, pid, if rd.thread.Some? then rd.thread.value else "", rd.thread.Some?);
  }

  /** Bumping the pid's count of one type keeps every pid's types summing to its raised score. */
  lemma StatsStep(stats: map<string, Tally<string>>, score: Tally<string>, pid: string, kind: string)
    requires Distinct(score) && pid in Keys(score)
    requires forall p :: p in stats ==> Distinct(stats[p])
    requires forall p :: Total(TallyOf(stats, p)) == CountOf(score, p)
    ensures var stats' := stats[pid := Bump(TallyOf(stats, pid), kind)];
      && (forall p :: p in stats' ==> Distinct(stats'[p]))
      && (forall p :: Total(TallyOf(stats', p)) == CountOf(Increment(score, pid), p))
      && (forall t :: CountOf(TallyOf(stats', pid), t) == CountOf(TallyOf(stats, pid), t) + if t == kind then 1 else 0)
      && (forall p :: p != pid ==> TallyOf(stats', p) == TallyOf(stats, p))
  {
    IncrementEffect(score, pid);
    BumpEffect(TallyOf(stats, pid), kind);
  }

  /** Bumping (or not) the pid's count of one thread name keeps the thread counts within the raised score. */
  lemma ThreadsStep(threads: map<string, Tally<string>>, score: Tally<string>, pid: string, comm: string, bump: bool)
    requires Distinct(score) && pid in Keys(score)
    requires forall p :: p in threads ==> Distinct(threads[p])
    requires forall p :: Total(TallyOf(threads, p)) <= CountOf(score, p)
    ensures var threads' := if bump then threads[pid := Bump(TallyOf(threads, pid), comm)] else threads;
      && (forall p :: p in threads' ==> Distinct(threads'[p]))
      && (forall p :: Total(TallyOf(threads', p)) <= CountOf(Increment(score, pid), p))
  {
    IncrementEffect(score, pid);
    BumpEffect(TallyOf(threads, pid), comm);
  }

  /** A run of readings adds |rs| to the pid's score and keeps the accounting consistent. */
  lemma {:induction false} TicksEffect(c: Counters, pid: string, rs: seq<Reading>)
    requires pid in Keys(c.pidScore) && KindsKnown(c, rs) && Consistent(c)
    ensures var r := Ticks(c, pid, rs);
      && Consistent(r)
      && (forall p :: CountOf(r.pidScore, p) == CountOf(c.pidScore, p) + if p == pid then |rs| else 0)
  {
    if |rs| > 0 {
      var init, last := rs[..|rs| - 1], rs[|rs| - 1];
      assert KindsKnown(c, init);
      TicksEffect(c, pid, init);
      TickEffect(Ticks(c, pid, init), pid, last, Ticks(c, pid, rs));
    }
  }

  /** A run of readings adds the count of each type to the grand totals and to the pid's own types. */
  lemma {:induction false} TicksKinds(c: Counters, pid: string, rs: seq<Reading>)
    requires pid in Keys(c.pidScore) && KindsKnown(c, rs) && Consistent(c)
    ensures var r := Ticks(c, pid, rs);
      && (forall t :: CountOf(r.totals, t) == CountOf(c.totals, t) + KindCount(rs, t))
      && (forall t :: CountOf(TallyOf(r.pidStats, pid), t) == CountOf(TallyOf(c.pidStats, pid), t) + KindCount(rs, t))
  {
    if |rs| > 0 {
      var init, last := rs[..|rs| - 1], rs[|rs| - 1];
      assert KindsKnown(c, init);
      TicksKinds(c, pid, init);
      TicksEffect(c, pid, init);
      TickEffect(Ticks(c, pid, init), pid, last, Ticks(c, pid, rs));
    }
  }

  /** The loop over `fds` is the accounting of their readings. */
  lemma {:induction false} CountFdsTicks(c: Counters, fs: ProcFs, cfg: Config, pid: string, isProcess: bool, fds: seq<Fd>)
    requires Ready(c, pid)
    ensures KindsKnown(c, Readings(fs, cfg, pid, isProcess, fds))
    ensures CountFds(c, fs, cfg, pid, isProcess, fds) == Ticks(c, pid, Readings(fs, cfg, pid, isProcess, fds))
    ensures forall t :: CountKind(fs, fds, t) == KindCount(Readings(fs, cfg, pid, isProcess, fds), t)
  {
    if |fds| > 0 {
      var rs := Readings(fs, cfg, pid, isProcess, fds);
      CountFdsTicks(c, fs, cfg, pid, isProcess, fds[..|fds| - 1]);
      assert rs[..|rs| - 1] == Readings(fs, cfg, pid, isProcess, fds[..|fds| - 1]);
    }
  }

  /** The loop over `fds` adds |fds| to the pid's score, and the count of each type to its totals. */
  lemma CountFdsEffect(c: Counters, fs: ProcFs, cfg: Config, pid: string, isProcess: bool, fds: seq<Fd>)
    requires Ready(c, pid) && Consistent(c)
    ensures var r := CountFds(c, fs, cfg, pid, isProcess, fds);
      && Consistent(r)
      && (forall p :: CountOf(r.pidScore, p) == CountOf(c.pidScore, p) + if p == pid then |fds| else 0)
      && (forall t :: CountOf(r.totals, t) == CountOf(c.totals, t) + CountKind(fs, fds, t))
      && (forall t :: CountOf(TallyOf(r.pidStats, pid), t) == CountOf(TallyOf(c.pidStats, pid), t) + CountKind(fs, fds, t))
  {
    CountFdsTicks(c, fs, cfg, pid, isProcess, fds);
    TicksEffect(c, pid, Readings(fs, cfg, pid, isProcess, fds));
    TicksKinds(c, pid, Readings(fs, cfg, pid, isProcess, fds));
  }

  /** `totals` starts with exactly the nine names get_fd_type can return, so `totals[fd_type] += 1` finds its key. */
  lemma TotalsKeysAreFdTypes()
    ensures Keys(InitialTotals) == FdTypeNames
  {
    assert Keys(InitialTotals) == FdTypeNames;
  }

  /** ... each once ... */
  lemma TotalsDistinct()
    ensures Distinct(InitialTotals)
  {
    forall i, j | 0 <= i < j < |InitialTotals| ensures InitialTotals[i].0 != InitialTotals[j].0 {
      var a, b := InitialTotals[i].0, InitialTotals[j].0;
      assert (|a|, a[0], a[1]) != (|b|, b[0], b[1]);
    }
  }

  /** ... and all at zero. */
  lemma TotalsStartAtZero()
    ensures Total(InitialTotals) == 0
  {
    assert Total(InitialTotals) == 0;
  }

  /** After listing /proc from the initial state, every listed pid is ready and the accounting is consistent. */
  lemma StartConsistent(list: seq<string>)
    ensures var c := NoCounters.(pidScore := ZeroScores([], list));
      Consistent(c) && forall p :: p in list ==> Ready(c, p)
  {
    var c := NoCounters.(pidScore := ZeroScores([], list));
    assert c.totals == InitialTotals && c.pidStats == map[] && c.pidThreads == map[];
    TotalsKeysAreFdTypes();
    TotalsDistinct();
    TotalsStartAtZero();
    ZeroScoresEffect([], list);
    assert Total(c.pidScore) == 0;
    forall p ensures Total(TallyOf(c.pidStats, p)) == CountOf(c.pidScore, p) {
      assert CountOf(c.pidScore, p) == CountOf([], p);
    }
  }

  // ---------------------------------------------------------------------------
  // get_stats: one fd directory, then the tasks of a process
  // ---------------------------------------------------------------------------

  /** The descriptor an fd-directory entry yields: only a symlink whose link can be read. */
  function LinkAt(fs: ProcFs, dir: string, e: DirEntry): seq<Fd>
  {
    var path := dir + e.name;
    if e.isSymlink && path in fs.links then [Fd(path, fs.links[path])] else []
  }

  /** The readable descriptors among the entries `es` of `dir`, in listing order. */
  function Links(fs: ProcFs, dir: string, es: seq<DirEntry>): seq<Fd>
  {
    if |es| == 0 then [] else Links(fs, dir, es[..|es| - 1]) + LinkAt(fs, dir, es[|es| - 1])
  }

  /** The directory get_stats lists: /proc/<pid>/fd/ for the process, <path>/fd/ for one of its tasks. */
  function FdDir(pid: string, path: string): string
  {
    if |path| > 0 then path + "/fd/" else "/proc/" + pid + "/fd/"
  }

  /** The descriptors get_stats reads for (pid, path), or None when the directory cannot be listed. */
  function ReadFds(fs: ProcFs, pid: string, path: string): Option<seq<Fd>>
  {
    var dir := FdDir(pid, path);
    if dir in fs.dirs then Some(Links(fs, dir, fs.dirs[dir])) else None
  }

  /** The position of the first `x` in `ts`. */
  function FirstIndex(ts: seq<string>, x: string): (k: nat)
    requires x in ts
    ensures k < |ts| && ts[k] == x && x !in ts[..k]
  {
    if ts[0] == x then 0
    else
      var k := 1 + FirstIndex(ts[1..], x);
      assert ts[..k] == [ts[0]] + ts[1..][..k - 1];
      k
  }

  /** `list.remove(x)`: drops the first occurrence. */
  function RemoveFirst(ts: seq<string>, x: string): seq<string>
    requires x in ts
  {
    var k := FirstIndex(ts, x);
    ts[..k] + ts[k + 1..]
  }

  function TaskPath(pid: string, task: string): string
  {
    "/proc/" + pid + "/task/" + task
  }

  /**
   * The tasks whose descriptors get_stats goes on to count for a process: the
   * listing of /proc/<pid>/task without the process's own id. None when the
   * listing fails or lacks that id, because `remove` then raises.
   */
  function TasksToScan(fs: ProcFs, selfPid: string, includeSelf: bool, pid: string): seq<string>
  {
    match ListPids(fs, "/proc/" + pid + "/task", selfPid, includeSelf)
    case None => []
    case Some(ts) => if pid in ts then RemoveFirst(ts, pid) else []
  }

  /** Every listed task except the process's own id (its first occurrence), and nothing when the listing fails or lacks it. */
  lemma TasksToScanExactly(fs: ProcFs, selfPid: string, includeSelf: bool, pid: string)
    ensures var listed := ListPids(fs, "/proc/" + pid + "/task", selfPid, includeSelf);
      && (listed.None? || pid !in listed.value ==> TasksToScan(fs, selfPid, includeSelf, pid) == [])
      && (listed.Some? && pid in listed.value ==>
            multiset(TasksToScan(fs, selfPid, includeSelf, pid)) == multiset(listed.value) - multiset{pid})
  {
    var listed := ListPids(fs, "/proc/" + pid + "/task", selfPid, includeSelf);
    if listed.Some? && pid in listed.value {
      var ts := listed.value;
      var k := FirstIndex(ts, pid);
      assert ts == ts[..k] + [pid] + ts[k + 1..];
    }
  }

  /** The descriptors read in one task's fd directory; none when it cannot be listed. */
  function TaskDirFds(fs: ProcFs, pid: string, task: string): seq<Fd>
  {
    match ReadFds(fs, pid, TaskPath(pid, task))
    case None => []
    case Some(fds) => fds
  }

  /** The task loop: each task's fd directory counted in turn, as a thread of `pid`. */
  function ScanTasks(c: Counters, fs: ProcFs, cfg: Config, pid: string, tasks: seq<string>): (r: Counters)
    requires Ready(c, pid)
    ensures Keys(r.pidScore) == Keys(c.pidScore) && Keys(r.totals) == Keys(c.totals)
  {
    if |tasks| == 0 then c
    else
      var prev := ScanTasks(c, fs, cfg, pid, tasks[..|tasks| - 1]);
      CountFds(prev, fs, cfg, pid, false, TaskDirFds(fs, pid, tasks[|tasks| - 1]))
  }

  /** get_stats(pid, path): the empty path is the process itself, followed by its tasks. */
  function GetStatsSpec(c: Counters, fs: ProcFs, cfg: Config, selfPid: string, pid: string, path: string): (r: Counters)
    requires Ready(c, pid)
    ensures Keys(r.pidScore) == Keys(c.pidScore) && Keys(r.totals) == Keys(c.totals)
  {
    match ReadFds(fs, pid, path)
    case None => c
    case Some(fds) =>
      var counted := CountFds(c, fs, cfg, pid, |path| == 0, fds);
      if |path| > 0 then counted
      else ScanTasks(counted, fs, cfg, pid, TasksToScan(fs, selfPid, cfg.includeSelf, pid))
  }

  /** One more task of the loop. */
  lemma ScanTasksStep(c: Counters, fs: ProcFs, cfg: Config, pid: string, tasks: seq<string>, j: nat)
    requires Ready(c, pid) && j < |tasks|
    ensures Ready(ScanTasks(c, fs, cfg, pid, tasks[..j]), pid)
    ensures ScanTasks(c, fs, cfg, pid, tasks[..j + 1]) ==
      CountFds(ScanTasks(c, fs, cfg, pid, tasks[..j]), fs, cfg, pid, false, TaskDirFds(fs, pid, tasks[j]))
  {
    assert tasks[..j + 1][..j] == tasks[..j];
  }

  /** get_stats on a task's directory counts that directory's descriptors as a thread's. */
  lemma TaskStats(c: Counters, fs: ProcFs, cfg: Config, selfPid: string, pid: string, task: string)
    requires Ready(c, pid)
    ensures GetStatsSpec(c, fs, cfg, selfPid, pid, TaskPath(pid, task)) == CountFds(c, fs, cfg, pid, false, TaskDirFds(fs, pid, task))
  {
    assert |TaskPath(pid, task)| > 0;
  }

  /** The descriptors of the tasks `tasks`, in the order they are counted. */
  function TaskFds(fs: ProcFs, pid: string, tasks: seq<string>): seq<Fd>
  {
    if |tasks| == 0 then []
    else TaskFds(fs, pid, tasks[..|tasks| - 1]) + TaskDirFds(fs, pid, tasks[|tasks| - 1])
  }

  /** Every descriptor one get_stats call counts. */
  function ScannedFds(fs: ProcFs, cfg: Config, selfPid: string, pid: string, path: string): seq<Fd>
  {
    match ReadFds(fs, pid, path)
    case None => []
    case Some(fds) => if |path| > 0 then fds else fds + TaskFds(fs, pid, TasksToScan(fs, selfPid, cfg.includeSelf, pid))
  }

  lemma {:induction false} ScanTasksEffect(c: Counters, fs: ProcFs, cfg: Config, pid: string, tasks: seq<string>)
    requires Ready(c, pid) && Consistent(c)
    ensures var r := ScanTasks(c, fs, cfg, pid, tasks);
      && Consistent(r)
      && (forall p :: CountOf(r.pidScore, p) == CountOf(c.pidScore, p) + if p == pid then |TaskFds(fs, pid, tasks)| else 0)
      && (forall t :: CountOf(r.totals, t) == CountOf(c.totals, t) + CountKind(fs, TaskFds(fs, pid, tasks), t))
  {
    if |tasks| > 0 {
      var init := tasks[..|tasks| - 1];
      var fds := TaskDirFds(fs, pid, tasks[|tasks| - 1]);
      ScanTasksEffect(c, fs, cfg, pid, init);
      CountFdsEffect(ScanTasks(c, fs, cfg, pid, init), fs, cfg, pid, false, fds);
      CountKindAppend(fs, TaskFds(fs, pid, init), fds);
    }
  }

  /**
   * One get_stats call raises the pid's score by the number of descriptors it
   * reads (in the process's fd directory and then in each of its other tasks'),
   * each type's total by how many of them have that type, changes no other
   * score, and keeps the accounting consistent.
   */
  lemma GetStatsEffect(c: Counters, fs: ProcFs, cfg: Config, selfPid: string, pid: string, path: string)
    requires Ready(c, pid) && Consistent(c)
    ensures var r := GetStatsSpec(c, fs, cfg, selfPid, pid, path);
      var fds := ScannedFds(fs, cfg, selfPid, pid, path);
      && Consistent(r)
      && (forall p :: CountOf(r.pidScore, p) == CountOf(c.pidScore, p) + if p == pid then |fds| else 0)
      && (forall t :: CountOf(r.totals, t) == CountOf(c.totals, t) + CountKind(fs, fds, t))
  {
    match ReadFds(fs, pid, path)
    case None =>
    case Some(fds) =>
      var counted := CountFds(c, fs, cfg, pid, |path| == 0, fds);
      CountFdsEffect(c, fs, cfg, pid, |path| == 0, fds);
      if |path| == 0 {
        var tasks := TasksToScan(fs, selfPid, cfg.includeSelf, pid);
        ScanTasksEffect(counted, fs, cfg, pid, tasks);
        CountKindAppend(fs, fds, TaskFds(fs, pid, tasks));
      }
  }

  /** The main program's get_stats calls, one per listed pid, in order. */
  function StatsSpec(c: Counters, fs: ProcFs, cfg: Config, selfPid: string, pids: seq<string>): (r: Counters)
    requires forall p :: p in pids ==> Ready(c, p)
    ensures Keys(r.pidScore) == Keys(c.pidScore) && Keys(r.totals) == Keys(c.totals)
  {
    if |pids| == 0 then c
    else
      var init, last := pids[..|pids| - 1], pids[|pids| - 1];
      assert forall p :: p in init ==> p in pids;
      var prev := StatsSpec(c, fs, cfg, selfPid, init);
      assert last in pids && Ready(c, last);
      GetStatsSpec(prev, fs, cfg, selfPid, last, "")
  }

  /** One more pid of the main program's loop. */
  lemma StatsSpecStep(c: Counters, fs: ProcFs, cfg: Config, selfPid: string, pids: seq<string>, k: nat)
    requires (forall p :: p in pids ==> Ready(c, p)) && k < |pids|
    ensures forall p :: p in pids ==> Ready(StatsSpec(c, fs, cfg, selfPid, pids[..k]), p)
    ensures StatsSpec(c, fs, cfg, selfPid, pids[..k + 1]) ==
      GetStatsSpec(StatsSpec(c, fs, cfg, selfPid, pids[..k]), fs, cfg, selfPid, pids[k], "")
  {
    assert pids[..k + 1][..k] == pids[..k];
  }

  // ---------------------------------------------------------------------------
  // print_pids
  // ---------------------------------------------------------------------------

  /** What print_pids writes under a process: nothing, "(no_task)", or the top thread names. */
  datatype ThreadLines = NotShown | NoTask | Lines(top: Tally<string>)

  /** One row: command, pid, parent pid, descriptor count, per-type counts, thread lines. */
  datatype Row = Row(comm: string, pid: string, ppid: string, count: nat, kinds: Tally<string>, threads: ThreadLines)

  /** How many rows the `i > max_pids` break lets through out of `n`. */
  function RowLimit(n: nat, maxPids: int): nat
  {
    if maxPids <= 0 then 0 else if maxPids < n then maxPids else n
  }

  /** How many thread lines the `j == max_threads` break lets through out of `n`. */
  function ThreadLimit(n: nat, maxThreads: int): nat
  {
    if 1 <= maxThreads < n then maxThreads else n
  }

  /** The row for (pid, count), or None where `pid_extra[pid]` or `pid_stats[pid]` lacks a key. */
  function RowOf(c: Counters, cfg: Config, pid: string, count: nat): Option<Row>
  {
    if pid !in c.pidExtra || c.pidExtra[pid].comm.None? || c.pidExtra[pid].ppid.None? || pid !in c.pidStats then None
    else
      var threads :=
        if !cfg.showThreads then NotShown
        else if pid !in c.pidThreads then NoTask
        else
          var sorted := SortByCount(c.pidThreads[pid]);
          Lines(sorted[..ThreadLimit(|sorted|, cfg.maxThreads)]);
      Some(Row(c.pidExtra[pid].comm.value, pid, c.pidExtra[pid].ppid.value, count, c.pidStats[pid], threads))
  }

  /**
   * A row's thread lines are the pid's thread names by non-increasing count:
   * at most `max_threads` of them when it is at least 1, and all of them
   * otherwise, since the counter then never equals the limit.
   */
  lemma RowThreadLines(c: Counters, cfg: Config, pid: string, count: nat)
    requires RowOf(c, cfg, pid, count).Some?
    ensures var row := RowOf(c, cfg, pid, count).value;
      && row.pid == pid && row.count == count
      && (row.threads.Lines? <==> cfg.showThreads && pid in c.pidThreads)
      && (row.threads.Lines? ==> NonIncreasing(row.threads.top))
      && (row.threads.Lines? && cfg.maxThreads >= 1 ==> |row.threads.top| <= cfg.maxThreads)
      && (row.threads.Lines? && cfg.maxThreads < 1 ==> |row.threads.top| == |c.pidThreads[pid]|)
  {
    if cfg.showThreads && pid in c.pidThreads {
      SortedByCount(c.pidThreads[pid]);
    }
  }

  /** The inner loop of print_pids: thread names by count, stopping when the counter reaches `max_threads`. */
  method TopThreads(threads: Tally<string>, maxThreads: int) returns (lines: Tally<string>)
    ensures lines == SortByCount(threads)[..ThreadLimit(|threads|, maxThreads)]
  {
    var sorted := SortByCount(threads);
    assert |sorted| == |threads|;
    lines := [];
    var j := 0;
    while j < |sorted|
      invariant 0 <= j <= |sorted| && lines == sorted[..j]
      invariant 1 <= maxThreads ==> j < maxThreads
    {
      lines := lines + [sorted[j]];
      j := j + 1;
      if j == maxThreads {
        break;
      }
    }
    assert j == ThreadLimit(|sorted|, maxThreads);
  }

  // ---------------------------------------------------------------------------
  // The census object
  // ---------------------------------------------------------------------------

  /**
   * The body of get_stats' loop for one descriptor whose link was read, on
   * the five dictionaries held as a value: the score, the type counts, the
   * extra columns, the thread counts and the totals.
   */
  method CountOne(c: Counters, fs: ProcFs, cfg: Config, pid: string, isProcess: bool, fd: Fd) returns (r: Counters)
    requires Ready(c, pid)
    ensures r == CountFd(c, fs, cfg, pid, isProcess, fd)
  {
    var score, stats, extra, threadMap, sums := c.pidScore, TallyOf(c.pidStats, pid), ExtraOf(c.pidExtra, pid), c.pidThreads, c.totals;
    score := Increment(score, pid);
    if isProcess {
      extra := extra.(comm := Some(GetComm(fs, pid, "")));
      extra := extra.(ppid := Some(GetPpid(fs, pid)));
    }
    if !isProcess && cfg.showThreads {
      var tid := TaskId(fd.path);
      var comm := GetComm(fs, pid, "/proc/" + pid + "/task/" + tid);
      var threads := CountThread(TallyOf(threadMap, pid), comm);
      threadMap := threadMap[pid := threads];
    }
    var kind := FdType(fd.target, fd.target in fs.regularFiles);
    stats := CountType(stats, kind);
    sums := Increment(sums, kind);
    r := Counters(score, c.pidStats[pid := stats], c.pidExtra[pid := extra], threadMap, sums);
  }

  /** `pid_stats[pid]` updated for one descriptor type: `if d.get(t) is None: d[t] = 0`, then `d[t] += 1`. */
  method CountType(stats: Tally<string>, kind: string) returns (r: Tally<string>)
    ensures r == Bump(stats, kind)
  {
    BumpIsDefaultThenIncrement(stats, kind);
    r := stats;
    if Lookup(r, kind).None? {
      r := Put(r, kind, 0);
    }
    r := Increment(r, kind);
  }

  /** `pid_threads[pid]` updated for one thread name: `d[c] = d.get(c, 0)`, then `d[c] += 1`. */
  method CountThread(threads: Tally<string>, comm: string) returns (r: Tally<string>)
    ensures r == Bump(threads, comm)
  {
    PutOwnCount(threads, comm);
    BumpIsDefaultThenIncrement(threads, comm);
    r := Put(threads, comm, CountOf(threads, comm));
    r := Increment(r, comm);
  }

  /** The module state of lsod: the five dictionaries, the configuration and the tool's own pid. */
  class FdCensus {
    var pidScore: Tally<string>
    var pidStats: map<string, Tally<string>>
    var pidExtra: map<string, Extra>
    var pidThreads: map<string, Tally<string>>
    var totals: Tally<string>
    const cfg: Config
    const selfPid: string

    ghost function State(): Counters
      reads this
    {
      Counters(pidScore, pidStats, pidExtra, pidThreads, totals)
    }

    constructor (cfg: Config, selfPid: string)
      ensures State() == NoCounters && this.cfg == cfg && this.selfPid == selfPid
    {
      pidScore, pidStats, pidExtra, pidThreads, totals := [], map[], map[], map[], InitialTotals;
      this.cfg, this.selfPid := cfg, selfPid;
    }

    /**
     * get_pids(path): the kept entries of `path`; when `path` is "/proc" each
     * kept pid's score is set to 0 as it is found.
     */
    method GetPids(fs: ProcFs, path: string) returns (pids: Option<seq<string>>)
      modifies this
      ensures pids == ListPids(fs, path, selfPid, cfg.includeSelf)
      ensures State() == old(State()).(pidScore := if path == "/proc" && pids.Some? then ZeroScores(old(pidScore), pids.value) else old(pidScore))
    {
      var isTask := path != "/proc";
      if path !in fs.dirs {
        return None;
      }
      var es := fs.dirs[path];
      var found: seq<string> := [];
      var i := 0;
      while i < |es|
        invariant 0 <= i <= |es|
        invariant found == Kept(fs, path, selfPid, cfg.includeSelf, es[..i])
        invariant pidScore == if isTask then old(pidScore) else ZeroScores(old(pidScore), found)
        invariant pidStats == old(pidStats) && pidExtra == old(pidExtra)
        invariant pidThreads == old(pidThreads) && totals == old(totals)
      {
        var item := es[i];
        KeptStep(fs, path, selfPid, cfg.includeSelf, es, i);
        if !cfg.includeSelf && item.name == selfPid {
          i := i + 1;
          continue;
        }
        if item.isDir && IsDigits(item.name) {
          var fdDir := path + "/" + item.name + "/fd/";
          if fdDir in fs.dirs && |fs.dirs[fdDir]| > 0 {
            ZeroScoresStep(old(pidScore), found, item.name);
            found := found + [item.name];
            if !isTask {
              pidScore := Put(pidScore, item.name, 0);
            }
          }
        }
        i := i + 1;
      }
      assert es[..i] == es;
      return Some(found);
    }

    /** The loop body of get_stats for one descriptor whose link was read. */
    method CountDescriptor(fs: ProcFs, pid: string, isProcess: bool, fd: Fd)
      modifies this
      requires Ready(State(), pid)
      ensures State() == CountFd(old(State()), fs, cfg, pid, isProcess, fd)
    {
      var r := CountOne(Counters(pidScore, pidStats, pidExtra, pidThreads, totals), fs, cfg, pid, isProcess, fd);
      pidScore, pidStats, pidExtra, pidThreads, totals := r.pidScore, r.pidStats, r.pidExtra, r.pidThreads, r.totals;
    }

    /** get_stats' loop over the entries `es` of the fd directory `dir`. */
    method CountDir(fs: ProcFs, pid: string, isProcess: bool, dir: string, es: seq<DirEntry>)
      modifies this
      requires Ready(State(), pid)
      ensures Ready(State(), pid)
      ensures State() == CountFds(old(State()), fs, cfg, pid, isProcess, Links(fs, dir, es))
    {
      ghost var base := State();
      var i := 0;
      while i < |es|
        invariant 0 <= i <= |es|
        invariant Ready(State(), pid)
        invariant State() == CountFds(base, fs, cfg, pid, isProcess, Links(fs, dir, es[..i]))
      {
        var item := es[i];
        var link := dir + item.name;
        if item.isSymlink && link in fs.links {
          LinkCounted(base, fs, cfg, pid, isProcess, dir, es, i);
          CountDescriptor(fs, pid, isProcess, Fd(link, fs.links[link]));
        } else {
          LinkSkipped(base, fs, cfg, pid, isProcess, dir, es, i);
        }
        i := i + 1;
      }
      assert es[..i] == es;
    }

    /**
     * get_stats(pid, path): counts the readable descriptors of the process
     * (empty path) or of one task, and for a process then every other task.
     */
    method GetStats(fs: ProcFs, pid: string, path: string)
      modifies this
      requires Ready(State(), pid)
      ensures State() == GetStatsSpec(old(State()), fs, cfg, selfPid, pid, path)
      decreases if |path| == 0 then 1 else 0, 1
    {
      var isProcess := |path| == 0;
      var dir := if isProcess then "/proc/" + pid + "/fd/" else path + "/fd/";
      if dir !in fs.dirs {
        return;
      }
      CountDir(fs, pid, isProcess, dir, fs.dirs[dir]);
      if isProcess {
        ScanOwnTasks(fs, pid);
      }
    }

    /**
     * The tail of get_stats for a process: list /proc/<pid>/task, drop the
     * process's own id (returning when that fails) and run get_stats on each
     * remaining task.
     */
    method ScanOwnTasks(fs: ProcFs, pid: string)
      modifies this
      requires Ready(State(), pid)
      ensures State() == ScanTasks(old(State()), fs, cfg, pid, TasksToScan(fs, selfPid, cfg.includeSelf, pid))
      decreases 1, 0
    {
      var taskDir := "/proc/" + pid + "/task";
      assert taskDir != "/proc" by { assert |taskDir| > |"/proc"|; }
      var tasks := GetPids(fs, taskDir);
      if tasks.None? || pid !in tasks.value {
        return;
      }
      var rest := RemoveFirst(tasks.value, pid);
      ghost var base := State();
      var j := 0;
      while j < |rest|
        invariant 0 <= j <= |rest|
        invariant Ready(State(), pid)
        invariant State() == ScanTasks(base, fs, cfg, pid, rest[..j])
      {
        ScanTasksStep(base, fs, cfg, pid, rest, j);
        TaskStats(State(), fs, cfg, selfPid, pid, rest[j]);
        GetStats(fs, pid, TaskPath(pid, rest[j]));
        j := j + 1;
      }
      assert rest[..j] == rest;
    }

    /**
     * print_pids: rows for the pids in `sort_dict_by_val(pid_score)` order, at
     * most `max_pids` of them. `missing` is the pid whose `pid_extra` or
     * `pid_stats` entry lacks a key, where print_pids raises KeyError after the
     * rows before it.
     */
    method PrintPids() returns (rows: seq<Row>, missing: Option<string>)
      ensures var order := SortByCount(pidScore);
        && |rows| <= RowLimit(|order|, cfg.maxPids)
        && (forall i :: 0 <= i < |rows| ==> RowOf(State(), cfg, order[i].0, order[i].1) == Some(rows[i]))
        && (forall i, j :: 0 <= i < j < |rows| ==> rows[i].count >= rows[j].count)
        && (missing.None? ==> |rows| == RowLimit(|order|, cfg.maxPids))
        && (missing.Some? ==> |rows| < |order| && missing.value == order[|rows|].0 && RowOf(State(), cfg, order[|rows|].0, order[|rows|].1).None?)
    {
      var order := SortByCount(pidScore);
      SortedByCount(pidScore);
      rows, missing := [], None;
      var i := 0;
      var k := 0;
      while k < |order|
        invariant 0 <= k <= |order| && i == k && |rows| == k
        invariant k == 0 || k <= cfg.maxPids
        invariant forall m :: 0 <= m < k ==> RowOf(State(), cfg, order[m].0, order[m].1) == Some(rows[m]) && rows[m].count == order[m].1
      {
        i := i + 1;
        if i > cfg.maxPids {
          break;
        }
        var (pid, count) := order[k];
        if pid !in pidExtra || pidExtra[pid].comm.None? || pidExtra[pid].ppid.None? || pid !in pidStats {
          missing := Some(pid);
          return;
        }
        var threads := NotShown;
        if cfg.showThreads {
          if pid !in pidThreads {
            threads := NoTask;
          } else {
            var top := TopThreads(pidThreads[pid], cfg.maxThreads);
            threads := Lines(top);
          }
        }
        rows := rows + [Row(pidExtra[pid].comm.value, pid, pidExtra[pid].ppid.value, count, pidStats[pid], threads)];
        k := k + 1;
      }
    }

    /**
     * The program's run before printing: list /proc, then count the descriptors
     * of each pid found. The accounting ends consistent.
     */
    method Collect(fs: ProcFs) returns (pids: Option<seq<string>>)
      modifies this
      requires State() == NoCounters
      ensures pids == ListPids(fs, "/proc", selfPid, cfg.includeSelf)
      ensures pids.None? ==> State() == NoCounters
      ensures pids.Some? ==>
        var start := NoCounters.(pidScore := ZeroScores([], pids.value));
        && (forall p :: p in pids.value ==> Ready(start, p))
        && State() == StatsSpec(start, fs, cfg, selfPid, pids.value)
      ensures Consistent(State())
    {
      pids := GetPids(fs, "/proc");
      if pids.None? {
        StartConsistent([]);
        assert NoCounters.(pidScore := ZeroScores([], [])) == State();
        return;
      }
      StartConsistent(pids.value);
      StatsOfAll(fs, pids.value);
    }

    /** get_stats for each pid in turn (the program hands them to a thread pool). */
    method StatsOfAll(fs: ProcFs, pids: seq<string>)
      modifies this
      requires Consistent(State()) && forall p :: p in pids ==> Ready(State(), p)
      ensures State() == StatsSpec(old(State()), fs, cfg, selfPid, pids)
      ensures Consistent(State())
    {
      ghost var base := State();
      var k := 0;
      while k < |pids|
        invariant 0 <= k <= |pids|
        invariant State() == StatsSpec(base, fs, cfg, selfPid, pids[..k])
        invariant Consistent(State())
      {
        StatsSpecStep(base, fs, cfg, selfPid, pids, k);
        GetStatsEffect(State(), fs, cfg, selfPid, pids[k], "");
        GetStats(fs, pids[k], "");
        k := k + 1;
      }
      assert pids[..k] == pids;
    }
  }
}
