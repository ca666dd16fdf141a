/**
 * The admin allowlist of the bot's configuration: the raw `ADMIN_IDS` setting is split on
 * commas, every piece is stripped of surrounding whitespace, blank pieces are dropped and the
 * rest are converted with Python's `int()`, which raises on anything that is not an integer
 * literal. Reading the environment is not modelled: the raw string is the input.
 */
module Config {
  import opened Wrappers

  // ---------------------------------------------------------------------------------------------
  // str.split(sep)
  // ---------------------------------------------------------------------------------------------

  /** Concatenation of `parts` with `sep` between neighbours (Python's `sep.join(parts)`). */
  function Join(parts: seq<string>, sep: char): string
    requires |parts| >= 1
  {
    if |parts| == 1 then parts[0] else parts[0] + [sep] + Join(parts[1..], sep)
  }

  /** Number of occurrences of `c` in `s`. */
  function Count(s: string, c: char): nat
  {
    if s == [] then 0 else (if s[0] == c then 1 else 0) + Count(s[1..], c)
  }

  /**
   * Python's `s.split(sep)` for a one-character separator: there is always at least one piece
   * (the empty string gives `[""]`), no piece contains the separator, there is one piece more
   * than there are separators, and joining the pieces back gives `s`.
   */
  function Split(s: string, sep: char): (parts: seq<string>)
    ensures |parts| == Count(s, sep) + 1
    ensures forall i :: 0 <= i < |parts| ==> sep !in parts[i]
    ensures Join(parts, sep) == s
  {
    if s == [] then [[]]
    else
      var rest := Split(s[1..], sep);
      if s[0] == sep then [[]] + rest
      else
        assert rest == [rest[0]] + rest[1..];
        [[s[0]] + rest[0]] + rest[1..]
  }

  // ---------------------------------------------------------------------------------------------
  // str.strip()
  // ---------------------------------------------------------------------------------------------

  /** The characters for which Python's `str.isspace()` holds: what `str.strip()` removes. */
  predicate IsSpace(c: char)
  {
    c == ' ' || ('\t' <= c <= '\r') || ('\U{1C}' <= c <= '\U{1F}') || c == '\U{85}' || c == '\U{A0}'
    || c == '\U{1680}' || ('\U{2000}' <= c <= '\U{200A}') || c == '\U{2028}' || c == '\U{2029}'
    || c == '\U{202F}' || c == '\U{205F}' || c == '\U{3000}'
  }

  predicate AllSatisfy(s: string, drop: char -> bool)
  {
    forall i :: 0 <= i < |s| ==> drop(s[i])
  }

  /** The first index at or after `i` whose character is not dropped (or `|s|`). */
  function SkipLeading(s: string, drop: char -> bool, i: nat): (j: nat)
    requires i <= |s|
    ensures i <= j <= |s|
    ensures forall k :: i <= k < j ==> drop(s[k])
    ensures j == |s| || !drop(s[j])
    decreases |s| - i
  {
    if i < |s| && drop(s[i]) then SkipLeading(s, drop, i + 1) else i
  }

  /** Going down from `j`, but not below `lo`, the end of the last character not dropped. */
  function SkipTrailing(s: string, drop: char -> bool, lo: nat, j: nat): (k: nat)
    requires lo <= j <= |s|
    ensures lo <= k <= j
    ensures forall m :: k <= m < j ==> drop(s[m])
    ensures k == lo || !drop(s[k - 1])
  {
    if j > lo && drop(s[j - 1]) then SkipTrailing(s, drop, lo, j - 1) else j
  }

  /**
   * Python's `s.strip(chars)`, with `drop` telling which characters are in `chars`: neither
   * starts nor ends with a dropped character, and is empty exactly when every character of
   * `s` is dropped (StripKeepsMiddle says which piece of `s` it is).
   */
  function StripWith(s: string, drop: char -> bool): (r: string)
    ensures r == [] <==> AllSatisfy(s, drop)
    ensures r == [] || (!drop(r[0]) && !drop(r[|r| - 1]))
  {
    var i := SkipLeading(s, drop, 0);
    var j := SkipTrailing(s, drop, i, |s|);
    s[i..j]
  }

  /** What `strip` returns is `s` with a run of dropped characters cut off each side. */
  lemma StripKeepsMiddle(s: string, drop: char -> bool)
    ensures exists i, j :: 0 <= i <= j <= |s| && StripWith(s, drop) == s[i..j]
                           && AllSatisfy(s[..i], drop) && AllSatisfy(s[j..], drop)
  {
    var i := SkipLeading(s, drop, 0);
    var j := SkipTrailing(s, drop, i, |s|);
    assert AllSatisfy(s[..i], drop) && AllSatisfy(s[j..], drop);
  }

  /** Python's `s.strip()`: empty exactly when `s` is all whitespace. */
  function Strip(s: string): (r: string)
    ensures r == [] <==> AllSatisfy(s, IsSpace)
  {
    StripWith(s, IsSpace)
  }

  // ---------------------------------------------------------------------------------------------
  // int(str)
  // ---------------------------------------------------------------------------------------------

  predicate IsDigit(c: char)
  {
    '0' <= c <= '9'
  }

  predicate AllDigits(s: string)
  {
    forall i :: 0 <= i < |s| ==> IsDigit(s[i])
  }

  /** A decimal integer literal as `int()` accepts it here: an optional sign, then digits. */
  predicate IsIntLiteral(s: string)
  {
    (|s| >= 1 && AllDigits(s))
    || (|s| >= 2 && (s[0] == '+' || s[0] == '-') && AllDigits(s[1..]))
  }

  /** The value of a string of decimal digits, most significant first. */
  function DigitsValue(s: string): nat
    requires AllDigits(s)
  {
    if s == [] then 0 else DigitsValue(s[..|s| - 1]) * 10 + (s[|s| - 1] as int - '0' as int)
  }

  /**
   * Python's `int(s)` on a string without surrounding whitespace: `None` stands for the
   * `ValueError` it raises on anything that is not a literal.
   */
  function ParseInt(s: string): (r: Option<int>)
    ensures r.Some? <==> IsIntLiteral(s)
    ensures r.Some? && s[0] == '-' ==> r.value <= 0
    ensures r.Some? && s[0] != '-' ==> r.value >= 0
  {
    if |s| >= 1 && AllDigits(s) then Some(DigitsValue(s))
    else if |s| >= 2 && (s[0] == '+' || s[0] == '-') && AllDigits(s[1..]) then
      Some(if s[0] == '-' then -(DigitsValue(s[1..]) as int) else DigitsValue(s[1..]))
    else None
  }

  /** The decimal digits of `n`, most significant first, without leading zeros. */
  function ShowNat(n: nat): (s: string)
    ensures |s| >= 1 && AllDigits(s)
  {
    var d := [('0' as int + n % 10) as char];
    if n < 10 then d else ShowNat(n / 10) + d
  }

  /** The canonical decimal text of `n` (Python's `str(n)`). */
  function ShowInt(n: int): string
  {
    if n < 0 then "-" + ShowNat(-n) else ShowNat(n)
  }

  lemma {:induction false} DigitsValueOfShowNat(n: nat)
    ensures DigitsValue(ShowNat(n)) == n
  {
    var s := ShowNat(n);
    if n >= 10 {
      DigitsValueOfShowNat(n / 10);
      assert s[..|s| - 1] == ShowNat(n / 10);
    }
  }

  /** `int(str(n)) == n`: every integer's canonical text parses back to it. */
  lemma {:induction false} ParseShowRoundTrip(n: int)
    ensures ParseInt(ShowInt(n)) == Some(n)
  {
    if n < 0 {
      DigitsValueOfShowNat(-n);
      assert ShowInt(n)[1..] == ShowNat(-n);
    } else {
      DigitsValueOfShowNat(n);
    }
  }

  lemma {:induction false} DigitsValueLeadingZero(d: string)
    requires AllDigits(d)
    ensures AllDigits("0" + d) && DigitsValue("0" + d) == DigitsValue(d)
  {
    assert AllDigits("0" + d) by {
      forall i | 0 <= i < |"0" + d| ensures IsDigit(("0" + d)[i]) {
        if i > 0 { assert ("0" + d)[i] == d[i - 1]; }
      }
    }
    if d != [] {
      var init := d[..|d| - 1];
      DigitsValueLeadingZero(init);
      assert ("0" + d)[..|"0" + d| - 1] == "0" + init;
      assert ("0" + d)[|"0" + d| - 1] == d[|d| - 1];
    }
  }

  /** `int()` ignores leading zeros: `int("0" + d) == int(d)` for a string of digits. */
  lemma LeadingZeroIgnored(d: string)
    requires |d| >= 1 && AllDigits(d)
    ensures ParseInt("0" + d) == ParseInt(d)
  {
    DigitsValueLeadingZero(d);
  }

  /** A leading `+` changes nothing: `int("+" + d) == int(d)` for a string of digits. */
  lemma PlusSignIgnored(d: string)
    requires |d| >= 1 && AllDigits(d)
    ensures ParseInt("+" + d) == ParseInt(d)
  {
    assert ("+" + d)[1..] == d;
  }

  /** A leading `-` negates: `int("-" + d) == -int(d)` for a string of digits. */
  lemma MinusSignNegates(d: string)
    requires |d| >= 1 && AllDigits(d)
    ensures ParseInt("-" + d) == Some(-ParseInt(d).value)
  {
    assert ("-" + d)[1..] == d;
  }

  // ---------------------------------------------------------------------------------------------
  // ADMIN_IDS
  // ---------------------------------------------------------------------------------------------

  /** The stripped pieces that are not blank, in their original order (the comprehension's filter). */
  function Fields(pieces: seq<string>): (f: seq<string>)
    ensures |f| <= |pieces|
    ensures forall i :: 0 <= i < |f| ==> f[i] != []
  {
    if pieces == [] then []
    else
      var t := Strip(pieces[0]);
      (if t == [] then [] else [t]) + Fields(pieces[1..])
  }

  /** Converts each field with `int()`, failing with the first field that is not a literal. */
  function ParseFields(fields: seq<string>): (r: Result<seq<int>, string>)
    ensures r.Success? <==> forall i :: 0 <= i < |fields| ==> IsIntLiteral(fields[i])
    ensures r.Success? ==> |r.value| == |fields|
                           && forall i :: 0 <= i < |fields| ==> ParseInt(fields[i]) == Some(r.value[i])
    ensures r.Failure? ==> exists k :: 0 <= k < |fields| && r.error == fields[k]
                                       && !IsIntLiteral(fields[k])
                                       && forall i :: 0 <= i < k ==> IsIntLiteral(fields[i])
  {
    if fields == [] then Success([])
    else
      match ParseInt(fields[0])
      case None => Failure(fields[0])
      case Some(n) =>
        var rest := ParseFields(fields[1..]);
        if rest.Failure? then
          ghost var k :| 0 <= k < |fields[1..]| && rest.error == fields[1..][k]
                        && !IsIntLiteral(fields[1..][k])
                        && forall i :: 0 <= i < k ==> IsIntLiteral(fields[1..][i]);
          assert forall i :: 0 <= i < k + 1 ==> IsIntLiteral(fields[i]) by {
            forall i | 0 <= i < k + 1 ensures IsIntLiteral(fields[i]) {
              if i > 0 { assert fields[i] == fields[1..][i - 1]; }
            }
          }
          assert rest.error == fields[k + 1];
          Failure(rest.error)
        else
          Success([n] + rest.value)
  }

  /** The non-blank, stripped comma-separated fields of the raw `ADMIN_IDS` setting, in order. */
  function AdminFields(raw: string): seq<string>
  {
    Fields(Split(raw, ','))
  }

  /**
   * `ADMIN_IDS = [int(id.strip()) for id in raw.split(',') if id.strip()]`: the ids of the
   * non-blank comma-separated fields in order, or the first field `int()` rejects.
   */
  function ParseAdminIds(raw: string): (r: Result<seq<int>, string>)
    ensures r.Success? <==> forall i :: 0 <= i < |AdminFields(raw)| ==> IsIntLiteral(AdminFields(raw)[i])
    ensures r.Success? ==> |r.value| == |AdminFields(raw)|
    ensures r.Success? ==> forall i :: 0 <= i < |AdminFields(raw)| ==> ParseInt(AdminFields(raw)[i]) == Some(r.value[i])
    ensures r.Failure? ==> r.error in AdminFields(raw) && !IsIntLiteral(r.error)
  {
    ParseFields(AdminFields(raw))
  }

  /** Dropping blank pieces keeps the order: the fields of a concatenation are concatenated. */
  lemma {:induction false} FieldsAppend(a: seq<string>, b: seq<string>)
    ensures Fields(a + b) == Fields(a) + Fields(b)
  {
    if a == [] {
      assert a + b == b;
    } else {
      assert (a + b)[0] == a[0] && (a + b)[1..] == a[1..] + b;
      FieldsAppend(a[1..], b);
    }
  }

  /** One piece gives its stripped text, or nothing when that is blank; with FieldsAppend this fixes `Fields`. */
  lemma FieldsOfOne(p: string)
    ensures Fields([p]) == (if Strip(p) == [] then [] else [Strip(p)])
  {
    assert [p][1..] == [];
  }

  /**
   * `idx` picks `f` out of `pieces`: the k-th element of `f` is the stripped `idx[k]`-th piece,
   * the positions increase, and every piece that is not blank once stripped is picked.
   */
  ghost predicate Picks(pieces: seq<string>, f: seq<string>, idx: seq<int>)
  {
    |idx| == |f| && PickedValues(pieces, f, idx, Strip) && Increasing(idx) && CoversNonBlank(pieces, idx)
  }

  /** The k-th element of `f` is `g` of the `idx[k]`-th piece. */
  ghost predicate PickedValues(pieces: seq<string>, f: seq<string>, idx: seq<int>, g: string -> string)
    requires |idx| == |f|
  {
    forall k :: 0 <= k < |idx| ==> 0 <= idx[k] < |pieces| && f[k] == g(pieces[idx[k]])
  }

  ghost predicate Increasing(idx: seq<int>)
  {
    forall k, l :: 0 <= k < l < |idx| ==> idx[k] < idx[l]
  }

  ghost predicate CoversNonBlank(pieces: seq<string>, idx: seq<int>)
  {
    forall i :: 0 <= i < |pieces| && Strip(pieces[i]) != [] ==> i in idx
  }

  ghost function Shift(idx: seq<int>): (r: seq<int>)
    ensures |r| == |idx| && forall k :: 0 <= k < |idx| ==> r[k] == idx[k] + 1
  {
    seq(|idx|, k requires 0 <= k < |idx| => idx[k] + 1)
  }

  lemma ShiftIncreasing(idx: seq<int>)
    requires Increasing(idx)
    ensures Increasing(Shift(idx))
  {
  }

  lemma ZeroThenShiftIncreasing(idx: seq<int>)
    requires Increasing(idx) && forall k :: 0 <= k < |idx| ==> idx[k] >= 0
    ensures Increasing([0] + Shift(idx))
  {
    var sh := Shift(idx);
    var idx2 := [0] + sh;
    forall k, l | 0 <= k < l < |idx2| ensures idx2[k] < idx2[l] {
      assert idx2[l] == sh[l - 1] == idx[l - 1] + 1;
      if k > 0 {
        assert idx2[k] == sh[k - 1] == idx[k - 1] + 1;
      }
    }
  }

  lemma ValuesShifted(p: string, tail: seq<string>, f: seq<string>, idx: seq<int>, g: string -> string)
    requires |idx| == |f| && PickedValues(tail, f, idx, g)
    ensures PickedValues([p] + tail, f, Shift(idx), g)
  {
    var pieces := [p] + tail;
    var idx2 := Shift(idx);
    forall k | 0 <= k < |idx2| ensures 0 <= idx2[k] < |pieces| && f[k] == g(pieces[idx2[k]]) {
      assert pieces[idx[k] + 1] == tail[idx[k]];
    }
  }

  lemma ValuesKept(p: string, tail: seq<string>, f: seq<string>, idx: seq<int>, g: string -> string)
    requires |idx| == |f| && PickedValues(tail, f, idx, g)
    ensures PickedValues([p] + tail, [g(p)] + f, [0] + Shift(idx), g)
  {
    var pieces := [p] + tail;
    var sh := Shift(idx);
    var idx2 := [0] + sh;
    var f2 := [g(p)] + f;
    forall k | 0 <= k < |idx2| ensures 0 <= idx2[k] < |pieces| && f2[k] == g(pieces[idx2[k]]) {
      if k > 0 {
        var j := idx[k - 1];
        assert idx2[k] == sh[k - 1] == j + 1 && f2[k] == f[k - 1];
        assert pieces[j + 1] == tail[j];
      }
    }
  }

  lemma CoverShifted(p: string, tail: seq<string>, idx: seq<int>)
    requires Strip(p) == [] && CoversNonBlank(tail, idx)
    ensures CoversNonBlank([p] + tail, Shift(idx))
  {
    var pieces := [p] + tail;
    var idx2 := Shift(idx);
    forall i | 0 <= i < |pieces| && Strip(pieces[i]) != [] ensures i in idx2 {
      assert pieces[i] == tail[i - 1];
      var k :| 0 <= k < |idx| && idx[k] == i - 1;
      assert idx2[k] == i;
    }
  }

  lemma CoverKept(p: string, tail: seq<string>, idx: seq<int>)
    requires CoversNonBlank(tail, idx)
    ensures CoversNonBlank([p] + tail, [0] + Shift(idx))
  {
    var pieces := [p] + tail;
    var sh := Shift(idx);
    var idx2 := [0] + sh;
    forall i | 0 <= i < |pieces| && Strip(pieces[i]) != [] ensures i in idx2 {
      if i == 0 {
        assert idx2[0] == 0;
      } else {
        assert pieces[i] == tail[i - 1];
        var k :| 0 <= k < |idx| && idx[k] == i - 1;
        assert idx2[k + 1] == sh[k] == i;
      }
    }
  }

  /** The fields are exactly the stripped non-blank pieces, in their order. */
  lemma {:induction false} FieldsPickPieces(pieces: seq<string>)
    ensures exists idx: seq<int> :: Picks(pieces, Fields(pieces), idx)
  {
    if pieces == [] {
      assert Picks(pieces, Fields(pieces), []);
    } else {
      var tail := pieces[1..];
      FieldsPickPieces(tail);
      var idx: seq<int> :| Picks(tail, Fields(tail), idx);
      var p := pieces[0];
      assert pieces == [p] + tail;
      if Strip(p) == [] {
        assert Fields(pieces) == Fields(tail);
        ValuesShifted(p, tail, Fields(tail), idx, Strip);
        ShiftIncreasing(idx);
        CoverShifted(p, tail, idx);
        assert Picks([p] + tail, Fields(tail), Shift(idx));
      } else {
        assert Fields(pieces) == [Strip(p)] + Fields(tail);
        ValuesKept(p, tail, Fields(tail), idx, Strip);
        ZeroThenShiftIncreasing(idx);
        CoverKept(p, tail, idx);
        assert Picks([p] + tail, [Strip(p)] + Fields(tail), [0] + Shift(idx));
      }
    }
  }

  /** The fields of `ADMIN_IDS` are its stripped non-blank comma-separated segments, in order. */
  lemma AdminFieldsAreSegments(raw: string)
    ensures exists idx: seq<int> :: Picks(Split(raw, ','), AdminFields(raw), idx)
  {
    FieldsPickPieces(Split(raw, ','));
    var idx: seq<int> :| Picks(Split(raw, ','), Fields(Split(raw, ',')), idx);
    assert Picks(Split(raw, ','), AdminFields(raw), idx);
  }

  /** A piece that is blank once stripped contributes nothing. */
  lemma {:induction false} FieldsOfBlankPieces(pieces: seq<string>)
    requires forall i :: 0 <= i < |pieces| ==> AllSatisfy(pieces[i], IsSpace)
    ensures Fields(pieces) == []
  {
    if pieces != [] {
      FieldsOfBlankPieces(pieces[1..]);
    }
  }

  /** A string of commas and whitespace only (the empty string among them) gives no admins. */
  lemma {:induction false} BlankSettingHasNoAdmins(raw: string)
    requires forall i :: 0 <= i < |raw| ==> raw[i] == ',' || IsSpace(raw[i])
    ensures ParseAdminIds(raw) == Success([])
  {
    var pieces := Split(raw, ',');
    forall k | 0 <= k < |pieces| ensures AllSatisfy(pieces[k], IsSpace) {
      PiecesOfBlankString(raw, k);
    }
    FieldsOfBlankPieces(pieces);
  }

  lemma {:induction false} PiecesOfBlankString(raw: string, k: nat)
    requires forall i :: 0 <= i < |raw| ==> raw[i] == ',' || IsSpace(raw[i])
    requires k < |Split(raw, ',')|
    ensures AllSatisfy(Split(raw, ',')[k], IsSpace)
  {
    if raw != [] {
      var rest := Split(raw[1..], ',');
      if raw[0] == ',' {
        if k > 0 { PiecesOfBlankString(raw[1..], k - 1); }
      } else if k == 0 {
        PiecesOfBlankString(raw[1..], 0);
      } else {
        PiecesOfBlankString(raw[1..], k);
      }
    }
  }

  lemma SplitOfExample()
    ensures Split("1,,2, ", ',') == ["1", "", "2", " "]
  {
    assert Split(" ", ',') == [" "];
    assert Split(", ", ',') == ["", " "];
    assert "2, "[0] == '2' && "2, "[1..] == ", ";
    assert |Split("2, ", ',')| == 2 && Split("2, ", ',')[0] == "2" && Split("2, ", ',')[1] == " ";
    assert Split("2, ", ',') == ["2", " "];
    assert Split(",2, ", ',') == ["", "2", " "];
    assert Split(",,2, ", ',') == ["", "", "2", " "];
    assert "1,,2, "[0] == '1' && "1,,2, "[1..] == ",,2, ";
    assert |Split("1,,2, ", ',')| == 4 && Split("1,,2, ", ',')[0] == "1";
    assert Split("1,,2, ", ',')[1..] == Split(",,2, ", ',')[1..];
  }

  lemma FieldsOfExample()
    ensures Fields(["1", "", "2", " "]) == ["1", "2"]
  {
    var pieces := ["1", "", "2", " "];
    assert Strip("1") == "1" && Strip("") == "" && Strip("2") == "2" && Strip(" ") == "";
    assert Fields(pieces[3..]) == [];
    assert Fields(pieces[2..]) == ["2"];
    assert Fields(pieces[1..]) == ["2"];
  }

  /** Blank pieces are dropped: `"1,,2, "` gives `[1, 2]`. */
  lemma BlankPiecesDropped()
    ensures ParseAdminIds("1,,2, ") == Success([1, 2])
  {
    SplitOfExample();
    FieldsOfExample();
    ParseFieldsOfExample();
  }

  lemma ParseFieldsOfExample()
    ensures ParseFields(["1", "2"]) == Success([1, 2])
  {
    assert DigitsValue("1") == 1 && DigitsValue("2") == 2;
    assert ParseInt("2") == Some(2) && ParseInt("1") == Some(1);
    assert ["1", "2"][1..] == ["2"] && ["2"][1..] == [];
    assert ParseFields([]) == Success([]);
    assert [2] + [] == [2];
    assert ParseFields(["2"]) == Success([2]);
    assert ["1", "2"][0] == "1" && [1] + [2] == [1, 2];
  }
}
