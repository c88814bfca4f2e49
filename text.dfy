/**
 * The Python string operations the three tools rely on, over `seq<char>`:
 * whitespace splitting (`str.split()`), splitting on a separator
 * (`str.split(':')`), `str.find`, slicing with negative and out-of-range
 * bounds, `str.isdigit`, newline removal, and the decimal and hexadecimal
 * conversions behind `int(...)`, `int(x, 16)` and `str(n)`.
 */
module Text {
  import opened Wrappers

  // ---------------------------------------------------------------------------
  // Whitespace splitting
  // ---------------------------------------------------------------------------

  /** The characters `str.isspace` accepts, which `str.split()` splits on. */
  predicate IsSpace(c: char)
  {
    ('\t' <= c <= '\r') || ('\U{1c}' <= c <= ' ') || c == '\U{85}' || c == '\U{a0}'
    || c == '\U{1680}' || ('\U{2000}' <= c <= '\U{200a}') || c == '\U{2028}' || c == '\U{2029}'
    || c == '\U{202f}' || c == '\U{205f}' || c == '\U{3000}'
  }

  predicate NoSpace(s: string)
  {
    forall i :: 0 <= i < |s| ==> !IsSpace(s[i])
  }

  /** What `str.split()` can return as one field: non-empty, no whitespace. */
  predicate IsWord(w: string)
  {
    |w| > 0 && NoSpace(w)
  }

  /** `s` with its leading whitespace removed. */
  function TrimStart(s: string): (r: string)
    ensures |r| <= |s|
    ensures r == [] || !IsSpace(r[0])
  {
    if |s| > 0 && IsSpace(s[0]) then TrimStart(s[1..]) else s
  }

  /** The longest prefix of `s` without whitespace. */
  function LeadingWord(s: string): (w: string)
    ensures |w| <= |s| && NoSpace(w)
    ensures |s| > 0 && !IsSpace(s[0]) ==> |w| > 0
  {
    if |s| == 0 || IsSpace(s[0]) then [] else [s[0]] + LeadingWord(s[1..])
  }

  /** `str.split()` with no argument: the maximal runs of non-whitespace characters. */
  function Fields(s: string): (ws: seq<string>)
    ensures forall i :: 0 <= i < |ws| ==> IsWord(ws[i])
    decreases |s|
  {
    var t := TrimStart(s);
    if t == [] then []
    else
      var w := LeadingWord(t);
      [w] + Fields(t[|w|..])
  }

  /** Words joined with single spaces, as `" ".join(ws)`. */
  function Unwords(ws: seq<string>): string
  {
    if |ws| == 0 then []
    else if |ws| == 1 then ws[0]
    else ws[0] + " " + Unwords(ws[1..])
  }

  lemma {:induction false} LeadingWordOf(w: string, rest: string)
    requires NoSpace(w)
    requires rest == [] || IsSpace(rest[0])
    ensures LeadingWord(w + rest) == w
  {
    if |w| > 0 {
      assert (w + rest)[1..] == w[1..] + rest;
      LeadingWordOf(w[1..], rest);
    }
  }

  /** Splitting words joined by spaces gives the words back. */
  lemma {:induction false} FieldsOfUnwords(ws: seq<string>)
    requires forall i :: 0 <= i < |ws| ==> IsWord(ws[i])
    ensures Fields(Unwords(ws)) == ws
  {
    if |ws| == 1 {
      LeadingWordOf(ws[0], []);
      assert ws[0] + [] == ws[0];
      assert TrimStart(ws[0]) == ws[0];
      assert ws[0][|ws[0]|..] == [];
    } else if |ws| > 1 {
      var tail := " " + Unwords(ws[1..]);
      assert Unwords(ws) == ws[0] + tail;
      LeadingWordOf(ws[0], tail);
      assert (ws[0] + tail)[|ws[0]|..] == tail;
      assert TrimStart(tail) == TrimStart(Unwords(ws[1..])) by {
        assert tail[1..] == Unwords(ws[1..]);
      }
      FieldsOfUnwords(ws[1..]);
      assert TrimStart(Unwords(ws[1..])) == Unwords(ws[1..]);
    }
  }

  /** Leading whitespace does not change the fields. */
  lemma FieldsAfterSpace(c: char, s: string)
    requires IsSpace(c)
    ensures Fields([c] + s) == Fields(s)
  {
    assert ([c] + s)[1..] == s;
    assert TrimStart([c] + s) == TrimStart(s);
  }

  lemma NoSpaceExcludes(w: string, c: char)
    requires NoSpace(w) && IsSpace(c)
    ensures c !in w
  {
  }

  /** Words joined by spaces hold no newline, and split back into the same words. */
  lemma WordsJoin(ws: seq<string>)
    requires forall i :: 0 <= i < |ws| ==> IsWord(ws[i])
    ensures '\n' !in Unwords(ws)
    ensures Fields(Unwords(ws)) == ws
  {
    forall i | 0 <= i < |ws| ensures '\n' !in ws[i] {
      NoSpaceExcludes(ws[i], '\n');
    }
    NotInUnwords(ws, '\n');
    FieldsOfUnwords(ws);
  }

  /** A character that no word contains, other than the space, does not occur in their join. */
  lemma {:induction false} NotInUnwords(ws: seq<string>, c: char)
    requires c != ' '
    requires forall i :: 0 <= i < |ws| ==> c !in ws[i]
    ensures c !in Unwords(ws)
  {
    if |ws| > 1 {
      NotInUnwords(ws[1..], c);
    }
  }

  // ---------------------------------------------------------------------------
  // Splitting on a separator
  // ---------------------------------------------------------------------------

  /** `s.split(sep)` for a one-character separator: always at least one piece. */
  function Split(s: string, sep: char): (parts: seq<string>)
    ensures |parts| >= 1
    ensures forall i :: 0 <= i < |parts| ==> sep !in parts[i]
  {
    if |s| == 0 then [[]]
    else if s[0] == sep then [[]] + Split(s[1..], sep)
    else
      var p := Split(s[1..], sep);
      [[s[0]] + p[0]] + p[1..]
  }

  /** `sep.join(parts)`. */
  function Join(parts: seq<string>, sep: char): string
    requires |parts| >= 1
  {
    if |parts| == 1 then parts[0] else parts[0] + [sep] + Join(parts[1..], sep)
  }

  /** Joining the pieces again gives the original string. */
  lemma {:induction false} JoinSplit(s: string, sep: char)
    ensures Join(Split(s, sep), sep) == s
  {
    if |s| > 0 {
      JoinSplit(s[1..], sep);
      var p := Split(s[1..], sep);
      if s[0] != sep && |p| > 1 {
        assert ([[s[0]] + p[0]] + p[1..])[1..] == p[1..];
      }
    }
  }

  /** Splitting a joined string whose pieces hold no separator gives the pieces back. */
  lemma {:induction false} SplitJoin(parts: seq<string>, sep: char)
    requires |parts| >= 1
    requires forall i :: 0 <= i < |parts| ==> sep !in parts[i]
    ensures Split(Join(parts, sep), sep) == parts
    decreases |parts|, |parts[0]|
  {
    var a := parts[0];
    if |a| > 0 {
      var parts' := [a[1..]] + parts[1..];
      assert sep !in a[1..];
      assert forall i :: 0 <= i < |parts'| ==> sep !in parts'[i] by {
        forall i | 0 <= i < |parts'| ensures sep !in parts'[i] {
          if i > 0 { assert parts'[i] == parts[i]; }
        }
      }
      SplitJoin(parts', sep);
      JoinFirst(parts, sep);
      JoinFirst(parts', sep);
      assert Join(parts, sep) == [a[0]] + Join(parts', sep);
      assert [a[0]] + a[1..] == a;
      assert ([a[0]] + Join(parts', sep))[1..] == Join(parts', sep);
    } else if |parts| > 1 {
      assert Join(parts, sep) == [sep] + Join(parts[1..], sep);
      assert ([sep] + Join(parts[1..], sep))[1..] == Join(parts[1..], sep);
      SplitJoin(parts[1..], sep);
    }
  }

  /** The joined string starts with the first piece. */
  lemma JoinFirst(parts: seq<string>, sep: char)
    requires |parts| >= 1
    ensures |parts[0]| > 0 ==> Join(parts, sep) == [parts[0][0]] + Join([parts[0][1..]] + parts[1..], sep)
  {
    if |parts[0]| > 0 {
      var parts' := [parts[0][1..]] + parts[1..];
      assert parts'[1..] == parts[1..];
    }
  }

  // ---------------------------------------------------------------------------
  // find and slicing
  // ---------------------------------------------------------------------------

  predicate OccursAt(s: string, sub: string, i: nat)
  {
    i + |sub| <= |s| && s[i..i + |sub|] == sub
  }

  /** `s.find(sub, start)`: the first occurrence at or after `start`, or -1. */
  function Find(s: string, sub: string, start: nat): (r: int)
    ensures r == -1 || (start <= r && OccursAt(s, sub, r))
    ensures forall j :: start <= j && (r == -1 || j < r) ==> !OccursAt(s, sub, j)
    decreases |s| - start
  {
    if start + |sub| > |s| then -1
    else if s[start..start + |sub|] == sub then start
    else Find(s, sub, start + 1)
  }

  /** Where a slice bound lands: negative bounds count from the end, then both are clamped. */
  function SliceBound(i: int, n: nat): (b: nat)
    ensures b <= n
    ensures 0 <= i <= n ==> b == i
    ensures i < 0 && i + n >= 0 ==> b == i + n
  {
    if i < 0 then (if i + n < 0 then 0 else i + n) else if i > n then n else i
  }

  /** `s[a:b]` with Python's slice semantics. */
  function Slice(s: string, a: int, b: int): (r: string)
    ensures |r| <= |s|
    ensures SliceBound(a, |s|) <= SliceBound(b, |s|) ==> r == s[SliceBound(a, |s|)..SliceBound(b, |s|)]
    ensures SliceBound(a, |s|) > SliceBound(b, |s|) ==> r == []
  {
    var lo, hi := SliceBound(a, |s|), SliceBound(b, |s|);
    if lo <= hi then s[lo..hi] else []
  }

  /** `sub in s`. */
  predicate Contains(s: string, sub: string)
  {
    Find(s, sub, 0) != -1
  }

  /** An occurrence with none before it (from `start` on) is what `find` returns. */
  lemma FindIsFirst(s: string, sub: string, start: nat, k: nat)
    requires start <= k && OccursAt(s, sub, k)
    requires forall j :: start <= j < k ==> !OccursAt(s, sub, j)
    ensures Find(s, sub, start) == k
  {
  }

  /** `s.rfind(c)`: the last position holding `c`, or -1. */
  function LastIndexOf(s: string, c: char): (r: int)
    ensures -1 <= r < |s|
  {
    if |s| == 0 then -1
    else if s[|s| - 1] == c then |s| - 1
    else LastIndexOf(s[..|s| - 1], c)
  }

  /** `rfind` finds `c` at its position and nowhere after it. */
  lemma {:induction false} LastIndexOfIsLast(s: string, c: char)
    ensures var r := LastIndexOf(s, c);
      && (r >= 0 ==> s[r] == c)
      && (forall j :: r < j < |s| ==> s[j] != c)
  {
    if |s| > 0 && s[|s| - 1] != c {
      LastIndexOfIsLast(s[..|s| - 1], c);
      var r := LastIndexOf(s, c);
      forall j | r < j < |s| ensures s[j] != c {
        if j < |s| - 1 { assert s[j] == s[..|s| - 1][j]; }
      }
    }
  }

  // ---------------------------------------------------------------------------
  // Characters and numbers
  // ---------------------------------------------------------------------------

  predicate IsDigit(c: char)
  {
    '0' <= c <= '9'
  }

  /** `str.isdigit`, for ASCII digits: non-empty and every character a digit. */
  predicate IsDigits(s: string)
  {
    |s| > 0 && forall i :: 0 <= i < |s| ==> IsDigit(s[i])
  }

  /** `s.replace("\n", "")`. */
  function RemoveNewlines(s: string): (r: string)
    ensures '\n' !in r
    ensures forall c :: c != '\n' ==> multiset(r)[c] == multiset(s)[c]
  {
    if |s| == 0 then []
    else
      assert s == [s[0]] + s[1..];
      (if s[0] == '\n' then [] else [s[0]]) + RemoveNewlines(s[1..])
  }

  /** Newline removal works piecewise and leaves text without newlines alone. */
  lemma {:induction false} RemoveNewlinesAppend(a: string, b: string)
    ensures RemoveNewlines(a + b) == RemoveNewlines(a) + RemoveNewlines(b)
  {
    if |a| > 0 {
      assert (a + b)[0] == a[0] && (a + b)[1..] == a[1..] + b;
      RemoveNewlinesAppend(a[1..], b);
    } else {
      assert a + b == b;
    }
  }

  lemma {:induction false} RemoveNoNewlines(s: string)
    requires '\n' !in s
    ensures RemoveNewlines(s) == s
  {
    if |s| > 0 {
      assert '\n' !in s[1..] by { assert forall i :: 0 <= i < |s[1..]| ==> s[1..][i] == s[i + 1]; }
      RemoveNoNewlines(s[1..]);
      assert s == [s[0]] + s[1..];
    }
  }

  /** A final newline is all `replace("\n", "")` takes from a line without other newlines. */
  lemma DropFinalNewline(s: string)
    requires '\n' !in s
    ensures RemoveNewlines(s + "\n") == s
  {
    RemoveNewlinesAppend(s, "\n");
    RemoveNoNewlines(s);
    assert RemoveNewlines("\n") == [];
  }

  function DigitValue(c: char): nat
    requires IsDigit(c)
  {
    c as int - '0' as int
  }

  /** Value of a decimal digit string, most significant digit first. */
  function DecimalValue(s: string): nat
    requires forall i :: 0 <= i < |s| ==> IsDigit(s[i])
  {
    if |s| == 0 then 0 else DecimalValue(s[..|s| - 1]) * 10 + DigitValue(s[|s| - 1])
  }

  function DigitChar(d: nat): (c: char)
    requires d < 10
    ensures IsDigit(c) && DigitValue(c) == d
  {
    ('0' as int + d) as char
  }

  /** `str(n)` for n >= 0: decimal digits with no leading zero. */
  function ShowNat(n: nat): (s: string)
    ensures IsDigits(s)
    ensures |s| > 1 ==> s[0] != '0'
    ensures DecimalValue(s) == n
  {
    if n < 10 then [DigitChar(n)]
    else
      var s := ShowNat(n / 10) + [DigitChar(n % 10)];
      assert s[..|s| - 1] == ShowNat(n / 10);
      s
  }

  /** `str(n)` for any integer. */
  function ShowInt(n: int): string
  {
    if n < 0 then "-" + ShowNat(-n) else ShowNat(n)
  }

  /**
   * `int(s)` on an optional sign followed by ASCII digits; None for every other
   * string. Python also accepts surrounding whitespace, `_` between digits and
   * non-ASCII digits, which this model rejects.
   */
  function ParseInt(s: string): (r: Option<int>)
    ensures r.Some? <==> (IsDigits(s) || (|s| > 1 && (s[0] == '+' || s[0] == '-') && IsDigits(s[1..])))
  {
    if IsDigits(s) then Some(DecimalValue(s))
    else if |s| > 1 && s[0] == '-' && IsDigits(s[1..]) then Some(-(DecimalValue(s[1..]) as int))
    else if |s| > 1 && s[0] == '+' && IsDigits(s[1..]) then Some(DecimalValue(s[1..]))
    else None
  }

  /** Reading back what str() wrote gives the number. */
  lemma ParseShowInt(n: int)
    ensures ParseInt(ShowInt(n)) == Some(n)
  {
    if n < 0 {
      var s := ShowInt(n);
      assert s[1..] == ShowNat(-n);
      assert !IsDigits(s) by { assert !IsDigit(s[0]); }
    }
  }

  /** A parsed decimal is a digit string without a sign, or one with a sign. */
  lemma ParseIntOfDigits(s: string)
    requires IsDigits(s)
    ensures ParseInt(s) == Some(DecimalValue(s) as int)
  {
  }

  /** Value of a hexadecimal digit, either case. */
  function HexDigit(c: char): Option<nat>
  {
    if '0' <= c <= '9' then Some(c as int - '0' as int)
    else if 'a' <= c <= 'f' then Some(c as int - 'a' as int + 10)
    else if 'A' <= c <= 'F' then Some(c as int - 'A' as int + 10)
    else None
  }

  /**
   * `int(s, 16)` on a non-empty string of ASCII hexadecimal digits; None for
   * every other string. Python also accepts surrounding whitespace, `_`, a sign
   * and a `0x` prefix, which this model rejects.
   */
  function HexValue(s: string): (r: Option<nat>)
    ensures r.Some? <==> |s| > 0 && forall i :: 0 <= i < |s| ==> HexDigit(s[i]).Some?
  {
    if |s| == 0 then None
    else if HexDigit(s[|s| - 1]).None? then None
    else if |s| == 1 then HexDigit(s[0])
    else match HexValue(s[..|s| - 1])
      case None => None
      case Some(v) => Some(v * 16 + HexDigit(s[|s| - 1]).value)
  }
}
