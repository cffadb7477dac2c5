/**
 * parse_title of viz2D_first_end_half.py: turns a result file name such as
 * "E_FTBS_SET2_exp_100_10.csv" into a plot title. The Python operations it
 * relies on are modelled here on strings: os.path.splitext (POSIX),
 * str.split('_'), the substring test `in`, int() on a string and the
 * decimal formatting of an int. An outcome is either the returned title or
 * the exception that escapes.
 */
module TitleParser {

  datatype Option<T> = None | Some(value: T)

  /** The exceptions that can leave parse_title (IndexError is caught). */
  datatype PyError = KeyError | ValueError | UnboundLocalError

  datatype Outcome = Returned(title: string) | Raised(error: PyError)

  /** What the IndexError handler returns. */
  const Invalid: string := "Invalid file name structure"

  /** The scheme prefixes parse_title knows, and their descriptions. */
  const SchemeMap: map<string, string> :=
    map["E" := "Explicit FTBS", "I" := "Implicit FTBS", "LW" := "Lax Wendroff", "Richtmyer" := "Richtmyer"]

  // ---------------------------------------------------------------------------
  // os.path.splitext
  // ---------------------------------------------------------------------------

  /** Position of the last c in s, or -1 (str.rfind). */
  function LastIndexOf(s: string, c: char): (k: int)
    ensures -1 <= k < |s|
    ensures k >= 0 ==> s[k] == c
    ensures forall j :: k < j < |s| ==> s[j] != c
  {
    if |s| == 0 then -1
    else if s[|s| - 1] == c then |s| - 1
    else LastIndexOf(s[..|s| - 1], c)
  }

  /** Some character of s[lo..hi] is not a dot. */
  predicate HasNonDot(s: string, lo: int, hi: int)
    requires 0 <= lo <= hi <= |s|
  {
    exists j :: lo <= j < hi && s[j] != '.'
  }

  /**
   * splitext: the extension runs from the last dot to the end, provided that
   * dot lies after the last '/' and is not part of the leading dots of the
   * last path component; otherwise it is empty.
   */
  function SplitExt(p: string): (r: (string, string))
    ensures r.0 + r.1 == p
    ensures r.1 == [] || (r.1[0] == '.' && '.' !in r.1[1..] && '/' !in r.1)
  {
    var sepIndex := LastIndexOf(p, '/');
    var dotIndex := LastIndexOf(p, '.');
    if dotIndex > sepIndex && HasNonDot(p, sepIndex + 1, dotIndex) then
      assert p[..dotIndex] + p[dotIndex..] == p;
      assert forall j :: 0 <= j < |p[dotIndex..]| ==> p[dotIndex..][j] == p[dotIndex + j];
      (p[..dotIndex], p[dotIndex..])
    else
      (p, [])
  }

  /** A non-empty name without dots or slashes gets exactly the ".csv" it is given stripped off again. */
  lemma SplitExtOfCsv(base: string)
    requires |base| > 0 && '.' !in base && '/' !in base
    ensures SplitExt(base + ".csv") == (base, ".csv")
  {
    var p := base + ".csv";
    assert p[|base|] == '.';
    assert LastIndexOf(p, '.') == |base|;
    assert LastIndexOf(p, '/') == -1 by {
      assert forall j :: 0 <= j < |p| ==> p[j] != '/' by {
        assert forall j :: 0 <= j < |base| ==> p[j] == base[j];
      }
    }
    assert p[|base| - 1] != '.' by { assert p[|base| - 1] == base[|base| - 1]; }
    assert HasNonDot(p, 0, |base|);
    assert p[..|base|] == base;
  }

  // ---------------------------------------------------------------------------
  // str.split with a one-character separator, and its inverse
  // ---------------------------------------------------------------------------

  /** Position of the first c in s, or |s|. */
  function IndexOf(s: string, c: char): (k: nat)
    ensures k <= |s|
    ensures k < |s| ==> s[k] == c
    ensures forall j :: 0 <= j < k ==> s[j] != c
  {
    if |s| == 0 then 0
    else if s[0] == c then 0
    else 1 + IndexOf(s[1..], c)
  }

  /** s.split(c): the pieces between separators, at least one. */
  function Split(s: string, c: char): (parts: seq<string>)
    ensures |parts| >= 1
    ensures forall i :: 0 <= i < |parts| ==> c !in parts[i]
    decreases |s|
  {
    var k := IndexOf(s, c);
    if k == |s| then
      assert forall j :: 0 <= j < |s| ==> s[j] != c;
      [s]
    else
      assert forall j :: 0 <= j < |s[..k]| ==> s[..k][j] != c;
      [s[..k]] + Split(s[k + 1..], c)
  }

  /** c.join(parts). */
  function Join(parts: seq<string>, c: char): string
    requires |parts| >= 1
  {
    if |parts| == 1 then parts[0] else parts[0] + [c] + Join(parts[1..], c)
  }

  /** Joining the pieces back gives the string that was split. */
  lemma {:induction false} JoinSplit(s: string, c: char)
    ensures Join(Split(s, c), c) == s
    decreases |s|
  {
    var k := IndexOf(s, c);
    if k < |s| {
      var head, rest := s[..k], s[k + 1..];
      assert s == head + [c] + rest;
      assert c !in head;
      SplitCons(head, rest, c);
      JoinSplit(rest, c);
      JoinCons(head, Split(rest, c), c);
    }
  }

  /** Splitting a join of separator-free pieces gives the pieces back. */
  lemma {:induction false} SplitJoin(parts: seq<string>, c: char)
    requires |parts| >= 1
    requires forall i :: 0 <= i < |parts| ==> c !in parts[i]
    ensures Split(Join(parts, c), c) == parts
    decreases |parts|
  {
    if |parts| == 1 {
      assert IndexOf(parts[0], c) == |parts[0]|;
    } else {
      SplitJoin(parts[1..], c);
      SplitCons(parts[0], Join(parts[1..], c), c);
    }
  }

  /** Joining a head in front of at least one piece puts a separator after it. */
  lemma JoinCons(head: string, parts: seq<string>, c: char)
    requires |parts| >= 1
    ensures Join([head] + parts, c) == head + [c] + Join(parts, c)
  {
    assert ([head] + parts)[1..] == parts;
  }

  /** Splitting a separator-free head, a separator and a rest splits off the head. */
  lemma SplitCons(head: string, rest: string, c: char)
    requires c !in head
    ensures Split(head + [c] + rest, c) == [head] + Split(rest, c)
  {
    var s := head + [c] + rest;
    assert s[|head|] == c;
    assert forall j :: 0 <= j < |head| ==> s[j] == head[j];
    assert IndexOf(s, c) == |head|;
    assert s[..|head|] == head;
    assert s[|head| + 1..] == rest;
  }

  // ---------------------------------------------------------------------------
  // The substring test `sub in s`
  // ---------------------------------------------------------------------------

  predicate Contains(s: string, sub: string)
    decreases |s|
  {
    |sub| <= |s| && (s[..|sub|] == sub || (|s| > 0 && Contains(s[1..], sub)))
  }

  /** sub occurs in s at position i. */
  predicate OccursAt(s: string, sub: string, i: int)
  {
    0 <= i && i + |sub| <= |s| && s[i..i + |sub|] == sub
  }

  /** `sub in s` holds exactly when sub occurs at some position of s. */
  lemma {:induction false} ContainsOccurs(s: string, sub: string)
    ensures Contains(s, sub) <==> exists i :: OccursAt(s, sub, i)
    decreases |s|
  {
    if |sub| <= |s| && |s| > 0 {
      ContainsOccurs(s[1..], sub);
      if Contains(s[1..], sub) {
        var i :| OccursAt(s[1..], sub, i);
        assert s[i + 1..i + 1 + |sub|] == s[1..][i..i + |sub|];
        assert OccursAt(s, sub, i + 1);
      }
      if s[..|sub|] == sub {
        assert OccursAt(s, sub, 0);
      }
      if exists i :: OccursAt(s, sub, i) {
        var i :| OccursAt(s, sub, i);
        if i > 0 {
          assert s[1..][i - 1..i - 1 + |sub|] == s[i..i + |sub|];
          assert OccursAt(s[1..], sub, i - 1);
          assert Contains(s[1..], sub);
        } else {
          assert s[..|sub|] == s[0..|sub|];
        }
        assert Contains(s, sub);
      }
    } else if |sub| <= |s| {
      assert OccursAt(s, sub, 0);
    }
  }

  // ---------------------------------------------------------------------------
  // int() on a string, and str() of an int
  // ---------------------------------------------------------------------------

  /** The ASCII-range characters str.strip() removes. */
  predicate IsSpace(c: char)
  {
    c == ' ' || c == '\t' || c == '\n' || c == '\r' || c == '\U{000B}' || c == '\U{000C}'
    || ('\U{001C}' <= c <= '\U{001F}')
  }

  function TrimLeft(s: string): string
  {
    if |s| > 0 && IsSpace(s[0]) then TrimLeft(s[1..]) else s
  }

  function TrimRight(s: string): string
  {
    if |s| > 0 && IsSpace(s[|s| - 1]) then TrimRight(s[..|s| - 1]) else s
  }

  predicate IsDigit(c: char) { '0' <= c <= '9' }

  predicate AllDigits(s: string)
  {
    forall i :: 0 <= i < |s| ==> IsDigit(s[i])
  }

  /** The value of a string of decimal digits (leading zeros allowed). */
  function DigitsValue(s: string): nat
    requires AllDigits(s)
  {
    if |s| == 0 then 0 else 10 * DigitsValue(s[..|s| - 1]) + (s[|s| - 1] as int - '0' as int)
  }

  /** int(s) in base 10: surrounding whitespace, an optional sign, then one or more digits. */
  function ParseInt(s: string): Option<int>
  {
    var t := TrimRight(TrimLeft(s));
    if |t| == 0 then None
    else
      var body := if t[0] == '+' || t[0] == '-' then t[1..] else t;
      if |body| == 0 || !AllDigits(body) then None
      else
        var v: int := DigitsValue(body);
        Some(if t[0] == '-' then -v else v)
  }

  function DigitChar(d: int): char
    requires 0 <= d < 10
  {
    ('0' as int + d) as char
  }

  /** The decimal digits of n, without leading zeros. */
  function NatToString(n: nat): (s: string)
    ensures |s| > 0 && AllDigits(s)
  {
    if n < 10 then [DigitChar(n)] else NatToString(n / 10) + [DigitChar(n % 10)]
  }

  /** str(i) for an int. */
  function IntToString(i: int): string
  {
    if i < 0 then "-" + NatToString(-i) else NatToString(i)
  }

  /** The digits of n read back give n. */
  lemma {:induction false} DigitsOfNat(n: nat)
    ensures DigitsValue(NatToString(n)) == n
  {
    if n >= 10 {
      DigitsOfNat(n / 10);
      var s := NatToString(n);
      assert s[..|s| - 1] == NatToString(n / 10);
    }
  }

  /** int(str(i)) == i. */
  lemma ParseIntOfString(i: int)
    ensures ParseInt(IntToString(i)) == Some(i)
  {
    var s := IntToString(i);
    var m := if i < 0 then -i else i;
    DigitsOfNat(m);
    assert !IsSpace(s[0]) && !IsSpace(s[|s| - 1]);
    assert TrimLeft(s) == s;
    assert TrimRight(s) == s;
    if i < 0 {
      assert s[1..] == NatToString(m);
    }
  }

  /** A formatted int is a plain piece: only '-' and digits. */
  lemma IntToStringPlain(i: int)
    ensures Plain(IntToString(i))
  {
    var s := IntToString(i);
    var m := if i < 0 then -i else i;
    var digits := NatToString(m);
    assert forall j :: 0 <= j < |digits| ==> IsDigit(digits[j]);
    assert forall j :: 0 <= j < |s| ==> s[j] == '-' || IsDigit(s[j]);
  }

  // ---------------------------------------------------------------------------
  // parse_title
  // ---------------------------------------------------------------------------

  /** The returned f-string "{scheme}, SET n°{k}, n={n}, T={T}". */
  function Title(scheme: string, k: int, n: int, t: int): string
  {
    scheme + ", SET n\U{00B0}" + IntToString(k) + ", n=" + IntToString(n) + ", T=" + IntToString(t)
  }

  /** The pieces of the file name without its extension. */
  function Parts(fileName: string): seq<string>
  {
    Split(SplitExt(fileName).0, '_')
  }

  /**
   * One branch of the try block, where parts[s] contains "SET": int of its last
   * character, then int(parts[s + 2]) and int(parts[s + 3]), each index
   * checked (IndexError) before its conversion (ValueError).
   */
  function Fields(scheme: string, parts: seq<string>, s: nat): Outcome
    requires s < |parts| && |parts[s]| > 0
  {
    match ParseInt([parts[s][|parts[s]| - 1]])
    case None => Raised(ValueError)
    case Some(k) =>
      if |parts| <= s + 2 then Returned(Invalid)
      else
        match ParseInt(parts[s + 2])
        case None => Raised(ValueError)
        case Some(n) =>
          if |parts| <= s + 3 then Returned(Invalid)
          else
            match ParseInt(parts[s + 3])
            case None => Raised(ValueError)
            case Some(t) => Returned(Title(scheme, k, n, t))
  }

  /** parse_title(file_name). */
  function ParseTitle(fileName: string): Outcome
  {
    var parts := Parts(fileName);
    if parts[0] !in SchemeMap then Raised(KeyError)
    else
      var scheme := SchemeMap[parts[0]];
      if |parts| < 2 then Returned(Invalid)
      else if Contains(parts[1], "SET") then Fields(scheme, parts, 1)
      else if |parts| < 3 then Returned(Invalid)
      else if Contains(parts[2], "SET") then Fields(scheme, parts, 2)
      else Raised(UnboundLocalError)
  }

  // ---------------------------------------------------------------------------
  // What parse_title does
  // ---------------------------------------------------------------------------

  /** A KeyError escapes exactly when the first piece is not a known scheme. */
  lemma KeyErrorIffUnknownScheme(fileName: string)
    ensures ParseTitle(fileName) == Raised(KeyError) <==> Parts(fileName)[0] !in SchemeMap
  {
  }

  /**
   * set_number is unbound exactly when the scheme is known, there are at least
   * three pieces and neither the second nor the third contains "SET".
   */
  lemma UnboundIffNoSet(fileName: string)
    ensures ParseTitle(fileName) == Raised(UnboundLocalError) <==>
      var parts := Parts(fileName);
      parts[0] in SchemeMap && |parts| >= 3 && !Contains(parts[1], "SET") && !Contains(parts[2], "SET")
  {
  }

  /** The invalid-structure text comes back only for a known scheme and at most five pieces. */
  lemma InvalidOnlyWhenShort(fileName: string)
    ensures ParseTitle(fileName) == Returned(Invalid) ==>
      Parts(fileName)[0] in SchemeMap && |Parts(fileName)| <= 5
    ensures Parts(fileName)[0] in SchemeMap && |Parts(fileName)| == 1 ==> ParseTitle(fileName) == Returned(Invalid)
  {
  }

  /** The pieces of a written file name: scheme, [word,] SET<d>, mode, n, T. */
  function WrittenParts(key: string, word: Option<string>, d: int, mode: string, n: int, t: int): seq<string>
    requires 0 <= d < 10
  {
    (match word case None => [key] case Some(w) => [key, w])
      + ["SET" + [DigitChar(d)], mode, IntToString(n), IntToString(t)]
  }

  /** Pieces that survive the file-name round trip: free of '_', '.' and '/'. */
  predicate Plain(piece: string)
  {
    '_' !in piece && '.' !in piece && '/' !in piece
  }

  /** The pieces of a written name are plain. */
  lemma WrittenPartsPlain(key: string, word: Option<string>, d: int, mode: string, n: int, t: int)
    requires key in SchemeMap && 0 <= d < 10
    requires word.Some? ==> Plain(word.value)
    requires Plain(mode)
    ensures var parts := WrittenParts(key, word, d, mode, n, t);
      |parts[0]| > 0 && forall i :: 0 <= i < |parts| ==> Plain(parts[i])
  {
    IntToStringPlain(n);
    IntToStringPlain(t);
  }

  /** A file name written from plain pieces and ".csv" splits back into those pieces. */
  lemma PartsOfWrittenName(parts: seq<string>)
    requires |parts| >= 1 && |parts[0]| > 0
    requires forall i :: 0 <= i < |parts| ==> Plain(parts[i])
    ensures Parts(Join(parts, '_') + ".csv") == parts
  {
    JoinPlain(parts);
    SplitExtOfCsv(Join(parts, '_'));
    SplitJoin(parts, '_');
  }

  /** A branch whose four pieces are SET<d>, anything, str(n), str(T) returns the title. */
  lemma FieldsOfWrittenPieces(scheme: string, parts: seq<string>, s: nat, d: int, n: int, t: int)
    requires 0 <= d < 10
    requires |parts| == s + 4
    requires parts[s] == "SET" + [DigitChar(d)]
    requires parts[s + 2] == IntToString(n) && parts[s + 3] == IntToString(t)
    ensures Fields(scheme, parts, s) == Returned(Title(scheme, d, n, t))
  {
    assert [parts[s][|parts[s]| - 1]] == IntToString(d);
    ParseIntOfString(d);
    ParseIntOfString(n);
    ParseIntOfString(t);
  }

  /** "SET" followed by a digit contains "SET". */
  lemma SetPieceContainsSet(d: int)
    requires 0 <= d < 10
    ensures Contains("SET" + [DigitChar(d)], "SET")
  {
    assert ("SET" + [DigitChar(d)])[..3] == "SET";
  }

  /**
   * Round trip: a name written as key_[word_]SET<d>_mode_n_T.csv from a known
   * key and plain pieces, with no "SET" in word, is parsed back to its scheme,
   * d, n and T.
   */
  lemma ParseWrittenName(key: string, word: Option<string>, d: int, mode: string, n: int, t: int)
    requires key in SchemeMap
    requires 0 <= d < 10
    requires word.Some? ==> Plain(word.value) && !Contains(word.value, "SET")
    requires Plain(mode)
    ensures ParseTitle(Join(WrittenParts(key, word, d, mode, n, t), '_') + ".csv")
      == Returned(Title(SchemeMap[key], d, n, t))
  {
    var parts := WrittenParts(key, word, d, mode, n, t);
    WrittenPartsPlain(key, word, d, mode, n, t);
    PartsOfWrittenName(parts);
    SetPieceContainsSet(d);
    var s := if word.Some? then 2 else 1;
    FieldsOfWrittenPieces(SchemeMap[key], parts, s, d, n, t);
  }

  /** A join of plain pieces is plain, and non-empty when its first piece is. */
  lemma {:induction false} JoinPlain(parts: seq<string>)
    requires |parts| >= 1 && |parts[0]| > 0
    requires forall i :: 0 <= i < |parts| ==> Plain(parts[i])
    ensures |Join(parts, '_')| > 0 && '.' !in Join(parts, '_') && '/' !in Join(parts, '_')
  {
    JoinDotFree(parts);
  }

  /** A join of plain pieces contains neither '.' nor '/'. */
  lemma {:induction false} JoinDotFree(parts: seq<string>)
    requires |parts| >= 1
    requires forall i :: 0 <= i < |parts| ==> Plain(parts[i])
    ensures '.' !in Join(parts, '_') && '/' !in Join(parts, '_')
    decreases |parts|
  {
    if |parts| > 1 {
      JoinDotFree(parts[1..]);
    }
  }

  /** The documentation comment's file name is a written name. */
  lemma ExampleNameIsWritten()
    ensures "E_FTBS_SET2_exp_100_10.csv" == Join(WrittenParts("E", Some("FTBS"), 2, "exp", 100, 10), '_') + ".csv"
  {
    ExamplePieces();
    ExampleLiterals();
    var t2 := Join(["100", "10"], '_');
    assert t2 == "100_10";
    var t3 := Join(["exp", "100", "10"], '_');
    assert t3 == "exp" + "_" + t2;
    var t4 := Join(["SET2", "exp", "100", "10"], '_');
    assert t4 == "SET2" + "_" + t3;
    var t5 := Join(["FTBS", "SET2", "exp", "100", "10"], '_');
    assert t5 == "FTBS" + "_" + t4;
    var t6 := Join(["E", "FTBS", "SET2", "exp", "100", "10"], '_');
    assert t6 == "E" + "_" + t5;
  }

  /** The concatenations that spell out the example name. */
  lemma ExampleLiterals()
    ensures "exp" + "_" + "100_10" == "exp_100_10"
    ensures "SET2" + "_" + "exp_100_10" == "SET2_exp_100_10"
    ensures "FTBS" + "_" + "SET2_exp_100_10" == "FTBS_SET2_exp_100_10"
    ensures "E" + "_" + "FTBS_SET2_exp_100_10" == "E_FTBS_SET2_exp_100_10"
    ensures "E_FTBS_SET2_exp_100_10" + ".csv" == "E_FTBS_SET2_exp_100_10.csv"
  {
  }

  /** The pieces written for scheme E, word FTBS, SET 2, mode exp, n = 100 and T = 10. */
  lemma ExamplePieces()
    ensures WrittenParts("E", Some("FTBS"), 2, "exp", 100, 10) == ["E", "FTBS", "SET2", "exp", "100", "10"]
  {
    assert IntToString(100) == "100" && IntToString(10) == "10";
    assert DigitChar(2) == '2';
    assert "SET" + [DigitChar(2)] == "SET2";
    assert WrittenParts("E", Some("FTBS"), 2, "exp", 100, 10) == ["E", "FTBS"] + ["SET2", "exp", "100", "10"];
  }

  /** "FTBS" does not contain "SET". */
  lemma FtbsHasNoSet()
    ensures !Contains("FTBS", "SET")
  {
    assert "FTBS"[..3][0] != "SET"[0] && "FTBS"[1..] == "TBS";
    assert "TBS"[..3][1] != "SET"[1] && "TBS"[1..] == "BS";
  }

  /** The file name of the documentation comment, and the title it actually gets. */
  lemma DocumentedExample()
    ensures ParseTitle("E_FTBS_SET2_exp_100_10.csv") == Returned("Explicit FTBS, SET n\U{00B0}2, n=100, T=10")
    ensures ParseTitle("E_FTBS_SET2_exp_100_10.csv")
      != Returned("Explicit FTBS (Schemes), SET n\U{00B0}2, Mode: Explicit, n=100, T=10")
  {
    ExampleNameIsWritten();
    FtbsHasNoSet();
    ParseWrittenName("E", Some("FTBS"), 2, "exp", 100, 10);
    ExampleTitle();
  }

  /** The title built for scheme E, SET 2, n = 100 and T = 10. */
  lemma ExampleTitle()
    ensures Title("Explicit FTBS", 2, 100, 10) == "Explicit FTBS, SET n\U{00B0}2, n=100, T=10"
    ensures Title("Explicit FTBS", 2, 100, 10) != "Explicit FTBS (Schemes), SET n\U{00B0}2, Mode: Explicit, n=100, T=10"
  {
    assert IntToString(2) == "2" && IntToString(100) == "100" && IntToString(10) == "10";
    var doc := "Explicit FTBS (Schemes), SET n\U{00B0}2, Mode: Explicit, n=100, T=10";
    assert |doc| == 61;
  }
}
