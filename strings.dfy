/** The string operations of the JavaScript runtime that the application relies on, as far as
    the modelled code uses them: `trim`, `split` on one character, `join`, `startsWith`,
    `includes`, ASCII `toLowerCase`, `String(n)` and `parseInt` on integers, and the CSV quote
    doubling `replace(/"/g, '""')`. */
module Strings {
  import opened Wrappers
  import opened Seqs

  /** The characters `String.prototype.trim` removes: the ECMAScript WhiteSpace and
      LineTerminator code points. */
  predicate IsSpace(c: char)
  {
    c == '\t' || c == '\n' || c == '\U{000B}' || c == '\U{000C}' || c == '\r' || c == ' '
    || c == '\U{00A0}' || c == '\U{1680}' || ('\U{2000}' <= c <= '\U{200A}')
    || c == '\U{2028}' || c == '\U{2029}' || c == '\U{202F}' || c == '\U{205F}'
    || c == '\U{3000}' || c == '\U{FEFF}'
  }

  predicate AllSpace(s: string)
  {
    forall i :: 0 <= i < |s| ==> IsSpace(s[i])
  }

  /** `s` has no space at either end, so trimming leaves it as it is. */
  predicate IsTrimmed(s: string)
  {
    s == [] || (!IsSpace(s[0]) && !IsSpace(s[|s| - 1]))
  }

  /** `s` with its leading white space removed: the longest suffix that does not start with a
      space, after only spaces. */
  function TrimStart(s: string): (r: string)
    ensures |r| <= |s| && r == s[|s| - |r|..]
    ensures AllSpace(s[..|s| - |r|])
    ensures r != [] ==> !IsSpace(r[0])
  {
    if s != [] && IsSpace(s[0]) then TrimStart(s[1..]) else s
  }

  /** `s` with its trailing white space removed. */
  function TrimEnd(s: string): (r: string)
    ensures |r| <= |s| && r == s[..|r|]
    ensures AllSpace(s[|r|..])
    ensures r != [] ==> !IsSpace(r[|r| - 1])
  {
    if s != [] && IsSpace(s[|s| - 1]) then
      var r := TrimEnd(s[..|s| - 1]);
      assert s[|r|..] == s[..|s| - 1][|r|..] + [s[|s| - 1]];
      r
    else s
  }

  /** `String.prototype.trim`: the middle of `s` between its leading and trailing spaces. */
  function Trim(s: string): (r: string)
    ensures |r| <= |s|
    ensures IsTrimmed(r)
  {
    TrimEnd(TrimStart(s))
  }

  /** A string is blank (trims to "") exactly when every character of it is a space. */
  lemma TrimEmptyIffBlank(s: string)
    ensures Trim(s) == [] <==> AllSpace(s)
  {
  }

  /** Trimming is idempotent: a trimmed string has no space at either end. */
  lemma TrimIdempotent(s: string)
    ensures Trim(Trim(s)) == Trim(s)
  {
    TrimOfTrimmed(Trim(s));
  }

  /** A string with no space at either end trims to itself. */
  lemma TrimOfTrimmed(s: string)
    requires IsTrimmed(s)
    ensures Trim(s) == s
  {
  }

  /** Leading spaces do not change the trimmed string. */
  lemma TrimSpacePrefix(sp: string, s: string)
    requires AllSpace(sp)
    ensures Trim(sp + s) == Trim(s)
  {
    TrimStartSpacePrefix(sp, s);
  }

  lemma {:induction false} TrimStartSpacePrefix(sp: string, s: string)
    requires AllSpace(sp)
    ensures TrimStart(sp + s) == TrimStart(s)
  {
    if sp == [] {
      assert sp + s == s;
    } else {
      var u := sp + s;
      assert u[0] == sp[0];
      assert u[1..] == sp[1..] + s;
      TrimStartSpacePrefix(sp[1..], s);
    }
  }

  /** `a.join(sep)`. */
  function Join(parts: seq<string>, sep: string): (r: string)
    ensures parts == [] ==> r == []
  {
    if parts == [] then []
    else if |parts| == 1 then parts[0]
    else parts[0] + sep + Join(parts[1..], sep)
  }

  /** A join that starts with a non-empty part is not empty. */
  lemma JoinNonEmpty(parts: seq<string>, sep: string)
    requires parts != [] && parts[0] != []
    ensures Join(parts, sep) != []
  {
    if |parts| > 1 {
      assert Join(parts, sep)[0] == parts[0][0];
    }
  }

  /** The lines `ls`, each followed by a line feed. */
  function Lines(ls: seq<string>): string
  {
    if ls == [] then [] else ls[0] + "\n" + Lines(ls[1..])
  }

  /** `ls.join("\n") + "\n"` ends every line, the last included, with a line feed. */
  lemma {:induction false} JoinLines(ls: seq<string>)
    requires ls != []
    ensures Join(ls, "\n") + "\n" == Lines(ls)
  {
    if |ls| == 1 {
      assert Lines(ls[1..]) == [];
    } else {
      JoinLines(ls[1..]);
      assert Join(ls, "\n") + "\n" == ls[0] + "\n" + (Join(ls[1..], "\n") + "\n");
    }
  }

  /** `s.split(c)` for a one-character separator: the maximal runs between separators. The
      empty string splits into one empty part. */
  function Split(s: string, c: char): (r: seq<string>)
    ensures |r| >= 1
    ensures forall i :: 0 <= i < |r| ==> c !in r[i]
  {
    if s == [] then [[]]
    else
      var rest := Split(s[1..], c);
      if s[0] == c then [[]] + rest
      else [[s[0]] + rest[0]] + rest[1..]
  }

  /** Splitting and joining with the same separator gives the string back. */
  lemma {:induction false} JoinSplit(s: string, c: char)
    ensures Join(Split(s, c), [c]) == s
  {
    if s != [] {
      JoinSplit(s[1..], c);
      var rest := Split(s[1..], c);
      if s[0] == c {
        assert Join(Split(s, c), [c]) == [] + [c] + Join(rest, [c]);
      } else {
        var r := Split(s, c);
        assert r[1..] == rest[1..];
        if |rest| == 1 {
          assert Join(r, [c]) == [s[0]] + rest[0];
        } else {
          assert Join(r, [c]) == [s[0]] + rest[0] + [c] + Join(rest[1..], [c]);
          assert Join(rest, [c]) == rest[0] + [c] + Join(rest[1..], [c]);
        }
        assert s == [s[0]] + s[1..];
      }
    }
  }

  /** Joining parts that themselves hold no separator, and splitting again, gives the parts
      back. */
  lemma {:induction false} SplitJoin(parts: seq<string>, c: char)
    requires |parts| >= 1
    requires forall i :: 0 <= i < |parts| ==> c !in parts[i]
    ensures Split(Join(parts, [c]), c) == parts
  {
    if |parts| == 1 {
      SplitNoSeparator(parts[0], c);
    } else {
      SplitJoin(parts[1..], c);
      SplitAfterPart(parts[0], c, Join(parts[1..], [c]));
      assert Join(parts, [c]) == parts[0] + ([c] + Join(parts[1..], [c]));
      assert parts == [parts[0]] + parts[1..];
    }
  }

  /** A string without the separator is one part. */
  lemma {:induction false} SplitNoSeparator(s: string, c: char)
    requires c !in s
    ensures Split(s, c) == [s]
  {
    if s != [] {
      SplitNoSeparator(s[1..], c);
      assert s == [s[0]] + s[1..];
    }
  }

  /** A part without the separator, then the separator, then `t`: the part comes first. */
  lemma {:induction false} SplitAfterPart(p: string, c: char, t: string)
    requires c !in p
    ensures Split(p + [c] + t, c) == [p] + Split(t, c)
  {
    if p == [] {
      assert p + [c] + t == [c] + t;
      assert ([c] + t)[1..] == t;
    } else {
      SplitAfterPart(p[1..], c, t);
      assert (p + [c] + t)[1..] == p[1..] + [c] + t;
      assert p == [p[0]] + p[1..];
    }
  }

  /** `.map(x => x.trim()).filter(Boolean)` over split parts: the trimmed parts that are not
      empty, in order. */
  function TrimmedNonEmpty(parts: seq<string>): (r: seq<string>)
    ensures |r| <= |parts|
    ensures forall i :: 0 <= i < |r| ==> r[i] != [] && IsTrimmed(r[i])
  {
    if parts == [] then []
    else
      var t := Trim(parts[0]);
      var rest := TrimmedNonEmpty(parts[1..]);
      if t == [] then rest
      else
        TrimmedCons(t, rest);
        [t] + rest
  }

  /** A trimmed, non-empty item in front of trimmed, non-empty items. */
  lemma TrimmedCons(t: string, rest: seq<string>)
    requires t != [] && IsTrimmed(t)
    requires forall i :: 0 <= i < |rest| ==> rest[i] != [] && IsTrimmed(rest[i])
    ensures forall i :: 0 <= i < |[t] + rest| ==> ([t] + rest)[i] != [] && IsTrimmed(([t] + rest)[i])
  {
    forall i | 0 <= i < |[t] + rest| ensures ([t] + rest)[i] != [] && IsTrimmed(([t] + rest)[i]) {
      if i > 0 {
        assert ([t] + rest)[i] == rest[i - 1];
      }
    }
  }

  /** `s.split(c).map(x => x.trim()).filter(Boolean)`: the list items of a comma- or
      newline-separated text. */
  function ParseList(s: string, c: char): (r: seq<string>)
    ensures forall i :: 0 <= i < |r| ==> r[i] != [] && IsTrimmed(r[i])
  {
    TrimmedNonEmpty(Split(s, c))
  }

  /** A proper list item: non-empty, already trimmed, and free of the separator. */
  predicate CleanItem(x: string, c: char)
  {
    x != [] && IsTrimmed(x) && c !in x
  }

  /** Every item is clean. */
  predicate CleanItems(items: seq<string>, c: char)
  {
    forall i :: 0 <= i < |items| ==> CleanItem(items[i], c)
  }

  /** A character absent from `s` is absent from every slice of it. */
  lemma SliceAbsent(s: string, i: nat, j: nat, c: char)
    requires i <= j <= |s| && c !in s
    ensures c !in s[i..j]
  {
    assert forall k :: 0 <= k < j - i ==> s[i..j][k] == s[i + k];
  }

  /** Trimming only removes characters: a character absent from `s` is absent from `Trim(s)`. */
  lemma TrimKeepsOut(s: string, c: char)
    requires c !in s
    ensures c !in Trim(s)
  {
    var t := TrimStart(s);
    SliceAbsent(s, |s| - |t|, |s|, c);
    var r := Trim(s);
    assert r == TrimEnd(t);
    SliceAbsent(t, 0, |r|, c);
  }

  /** A part free of the separator trims to nothing or to a clean item. */
  lemma TrimmedPartClean(x: string, c: char)
    requires c !in x
    ensures Trim(x) == [] || CleanItem(Trim(x), c)
  {
    TrimKeepsOut(x, c);
  }

  /** Parts free of the separator give clean list items. */
  lemma {:induction false} TrimmedNonEmptyClean(parts: seq<string>, c: char)
    requires forall i :: 0 <= i < |parts| ==> c !in parts[i]
    ensures CleanItems(TrimmedNonEmpty(parts), c)
  {
    if parts != [] {
      var tail := parts[1..];
      assert forall i :: 0 <= i < |tail| ==> tail[i] == parts[i + 1];
      TrimmedNonEmptyClean(tail, c);
      TrimmedPartClean(parts[0], c);
      CleanCons(Trim(parts[0]), TrimmedNonEmpty(tail), c);
    }
  }

  /** A clean item in front of clean items, or nothing in front of them. */
  lemma CleanCons(t: string, rest: seq<string>, c: char)
    requires t == [] || CleanItem(t, c)
    requires CleanItems(rest, c)
    ensures CleanItems(if t == [] then rest else [t] + rest, c)
  {
    if t != [] {
      assert forall i :: 1 <= i < |rest| + 1 ==> ([t] + rest)[i] == rest[i - 1];
    }
  }

  /** The items of a parsed list are clean: non-empty, trimmed and free of the separator. */
  lemma ParseListClean(s: string, c: char)
    ensures CleanItems(ParseList(s, c), c)
  {
    TrimmedNonEmptyClean(Split(s, c), c);
  }

  /** Parsing a list, joining its items with "<c> " and parsing again gives the same items. */
  lemma ParseListStable(s: string, c: char)
    requires c != ' '
    ensures ParseList(Join(ParseList(s, c), [c, ' ']), c) == ParseList(s, c)
  {
    ParseListClean(s, c);
    ParseListJoin(ParseList(s, c), c);
  }

  /** A space in front of the text only pads its first part, which trimming removes again. */
  lemma SplitSpaceFront(t: string, c: char)
    requires c != ' '
    ensures TrimmedNonEmpty(Split(" " + t, c)) == TrimmedNonEmpty(Split(t, c))
  {
    var st := Split(t, c);
    var u := " " + t;
    assert u[0] == ' ' && u[1..] == t;
    var su := Split(u, c);
    assert su == [" " + st[0]] + st[1..];
    TrimSpacePrefix(" ", st[0]);
    assert su[1..] == st[1..];
  }

  /** Joining clean items with "<c> " and parsing the text again gives the items back: the
      profile's skills survive being shown joined and saved again. */
  lemma {:induction false} ParseListJoin(items: seq<string>, c: char)
    requires c != ' '
    requires CleanItems(items, c)
    ensures ParseList(Join(items, [c, ' ']), c) == items
    decreases |items|, 1
  {
    if items == [] {
      ParseListEmpty(c);
    } else if |items| == 1 {
      ParseListJoinOne(items, c);
    } else {
      ParseListJoinMany(items, c);
    }
  }

  lemma ParseListEmpty(c: char)
    ensures ParseList(Join([], [c, ' ']), c) == []
  {
    assert Split([], c) == [[]];
    assert TrimmedNonEmpty([[]]) == [];
  }

  lemma ParseListJoinOne(items: seq<string>, c: char)
    requires |items| == 1 && CleanItems(items, c)
    ensures ParseList(Join(items, [c, ' ']), c) == items
  {
    ParseListSingle(items[0], c);
    assert items == [items[0]];
  }

  lemma {:induction false} ParseListJoinMany(items: seq<string>, c: char)
    requires c != ' ' && |items| >= 2 && CleanItems(items, c)
    ensures ParseList(Join(items, [c, ' ']), c) == items
    decreases |items|, 0
  {
    assert forall i :: 0 <= i < |items[1..]| ==> items[1..][i] == items[i + 1];
    ParseListJoin(items[1..], c);
    ParseListCons(items[0], items[1..], c);
    assert [items[0]] + items[1..] == items;
  }

  lemma ParseListSingle(x: string, c: char)
    requires CleanItem(x, c)
    ensures ParseList(Join([x], [c, ' ']), c) == [x]
  {
    SplitNoSeparator(x, c);
    KeepCleanOne(x);
  }

  lemma ParseListCons(x: string, tail: seq<string>, c: char)
    requires c != ' ' && CleanItem(x, c) && tail != []
    ensures ParseList(Join([x] + tail, [c, ' ']), c) == [x] + ParseList(Join(tail, [c, ' ']), c)
  {
    var j1 := Join(tail, [c, ' ']);
    JoinCons(x, tail, c);
    SplitAfterPart(x, c, " " + j1);
    SplitSpaceFront(j1, c);
    KeepClean(x, Split(" " + j1, c));
  }

  lemma JoinCons(x: string, items: seq<string>, c: char)
    requires items != []
    ensures Join([x] + items, [c, ' ']) == x + [c] + (" " + Join(items, [c, ' ']))
  {
    assert ([x] + items)[1..] == items;
  }

  lemma KeepCleanOne(x: string)
    requires x != [] && IsTrimmed(x)
    ensures TrimmedNonEmpty([x]) == [x]
  {
    TrimOfTrimmed(x);
    assert [x][1..] == [];
  }

  lemma KeepClean(x: string, parts: seq<string>)
    requires x != [] && IsTrimmed(x)
    ensures TrimmedNonEmpty([x] + parts) == [x] + TrimmedNonEmpty(parts)
  {
    TrimOfTrimmed(x);
    assert ([x] + parts)[0] == x && ([x] + parts)[1..] == parts;
  }

  /** `s.startsWith(p)`. */
  predicate StartsWith(s: string, p: string)
  {
    |p| <= |s| && s[..|p|] == p
  }

  /** `s.includes(p)`: `p` occurs somewhere in `s`. */
  predicate Contains(s: string, p: string)
    decreases |s|
  {
    StartsWith(s, p) || (s != [] && Contains(s[1..], p))
  }

  /** A text with a character that `s` lacks does not occur in `s`. */
  lemma {:induction false} MissingCharNotContained(s: string, p: string, i: nat)
    requires i < |p| && p[i] !in s
    ensures !Contains(s, p)
    decreases |s|
  {
    if |p| <= |s| {
      assert s[..|p|][i] == s[i];
    }
    if s != [] {
      MissingCharNotContained(s[1..], p, i);
    }
  }

  /** ASCII `toLowerCase` of one character. */
  function LowerChar(c: char): (r: char)
    ensures 'A' <= c <= 'Z' ==> 'a' <= r <= 'z'
    ensures !('A' <= c <= 'Z') ==> r == c
  {
    if 'A' <= c <= 'Z' then (c as int + 32) as char else c
  }

  /** ASCII `toLowerCase`. */
  function ToLower(s: string): (r: string)
    ensures |r| == |s|
    ensures forall i :: 0 <= i < |s| ==> r[i] == LowerChar(s[i])
  {
    seq(|s|, i requires 0 <= i < |s| => LowerChar(s[i]))
  }

  predicate IsDigit(c: char)
  {
    '0' <= c <= '9'
  }

  function DigitChar(d: nat): (c: char)
    requires d < 10
    ensures IsDigit(c) && c as int - '0' as int == d
  {
    ('0' as int + d) as char
  }

  /** `String(n)` for a natural number: its decimal digits, most significant first. */
  function NatToString(n: nat): (r: string)
    ensures r != []
    ensures forall i :: 0 <= i < |r| ==> IsDigit(r[i])
    ensures n > 0 ==> r[0] != '0'
    decreases n
  {
    if n < 10 then [DigitChar(n)] else NatToString(n / 10) + [DigitChar(n % 10)]
  }

  /** `String(n)` for an integer. */
  function IntToString(n: int): (r: string)
    ensures r != []
    ensures n < 0 <==> r[0] == '-'
  {
    if n < 0 then "-" + NatToString(-n) else NatToString(n)
  }

  /** A digit in base `radix`: a decimal digit, and in base sixteen also a letter from "a" to
      "f" of either case. */
  predicate IsRadixDigit(c: char, radix: nat)
  {
    IsDigit(c) || (radix == 16 && ('a' <= c <= 'f' || 'A' <= c <= 'F'))
  }

  function RadixDigitValue(c: char, radix: nat): (v: nat)
    requires IsRadixDigit(c, radix)
    ensures v < (if radix == 16 then 16 else 10)
  {
    if IsDigit(c) then c as int - '0' as int
    else if 'a' <= c <= 'f' then c as int - 'a' as int + 10
    else c as int - 'A' as int + 10
  }

  /** The value of a string of digits in base `radix` (sixteen, or ten for any other value). */
  function RadixValue(s: string, radix: nat): (v: nat)
    requires forall i :: 0 <= i < |s| ==> IsRadixDigit(s[i], radix)
  {
    if s == [] then 0
    else
      var high := RadixValue(s[..|s| - 1], radix);
      (if radix == 16 then high * 16 else high * 10) + RadixDigitValue(s[|s| - 1], radix)
  }

  /** The longest prefix of `s` made of digits in base `radix`. */
  function RadixPrefix(s: string, radix: nat): (r: string)
    ensures |r| <= |s| && r == s[..|r|]
    ensures forall i :: 0 <= i < |r| ==> IsRadixDigit(r[i], radix)
    ensures |r| < |s| ==> !IsRadixDigit(s[|r|], radix)
  {
    if s != [] && IsRadixDigit(s[0], radix) then [s[0]] + RadixPrefix(s[1..], radix) else []
  }

  /** `s` starts with "0x" or "0X". */
  predicate HexMarked(s: string)
  {
    |s| >= 2 && s[0] == '0' && (s[1] == 'x' || s[1] == 'X')
  }

  /** The number `parseInt` reads after its sign: base sixteen after a "0x" or "0X", base ten
      otherwise, the longest run of digits of that base; `None` when that run is empty. */
  function ParseUnsigned(u: string): (r: Option<nat>)
  {
    var radix := if HexMarked(u) then 16 else 10;
    var ds := RadixPrefix(if HexMarked(u) then u[2..] else u, radix);
    if ds == [] then None else Some(RadixValue(ds, radix))
  }

  /** `parseInt(s)` without a radix: leading white space, an optional sign, then the number
      `ParseUnsigned` reads; `None` stands for `NaN`. */
  function ParseInt(s: string): (r: Option<int>)
  {
    var t := TrimStart(s);
    if t != [] && (t[0] == '-' || t[0] == '+') then
      match ParseUnsigned(t[1..])
      case None => None
      case Some(v) => Some(if t[0] == '-' then -(v as int) else v)
    else
      match ParseUnsigned(t)
      case None => None
      case Some(v) => Some(v)
  }

  /** Reading the digits written by `NatToString` gives the number back. */
  lemma {:induction false} DigitsOfNat(n: nat)
    ensures RadixValue(NatToString(n), 10) == n
    decreases n
  {
    var r := NatToString(n);
    if n >= 10 {
      DigitsOfNat(n / 10);
      assert r[..|r| - 1] == NatToString(n / 10);
    }
  }

  lemma RadixPrefixAll(s: string, radix: nat)
    requires forall i :: 0 <= i < |s| ==> IsRadixDigit(s[i], radix)
    ensures RadixPrefix(s, radix) == s
  {
  }

  /** The digits of `String(n)` read back as `n`. */
  lemma ParseUnsignedOfNat(m: nat)
    ensures ParseUnsigned(NatToString(m)) == Some(m)
  {
    var u := NatToString(m);
    DigitsOfNat(m);
    RadixPrefixAll(u, 10);
    assert !HexMarked(u) by {
      if |u| >= 2 {
        assert IsDigit(u[1]);
      }
    }
  }

  /** `parseInt(String(n))` is `n`: the decimal rendering reads back. */
  lemma ParseIntOfString(n: int)
    ensures ParseInt(IntToString(n)) == Some(n)
  {
    var s := IntToString(n);
    var m := if n < 0 then -n else n;
    ParseUnsignedOfNat(m);
    assert s != [] && !IsSpace(s[0]);
    assert TrimStart(s) == s;
    if n < 0 {
      assert s[1..] == NatToString(m);
    } else {
      assert s == NatToString(m) && s[0] != '-' && s[0] != '+';
    }
  }

  /** A text that does not start with white space is its own `TrimStart`. */
  lemma TrimStartNoSpace(s: string)
    requires s != [] && !IsSpace(s[0])
    ensures TrimStart(s) == s
  {
  }

  /** After "0x" or "0X", `ParseUnsigned` reads the rest in base sixteen. */
  lemma HexUnsigned(u: string)
    requires HexMarked(u) && |u| > 2 && forall i :: 2 <= i < |u| ==> IsRadixDigit(u[i], 16)
    ensures ParseUnsigned(u) == Some(RadixValue(u[2..], 16))
  {
    var ds := u[2..];
    forall i | 0 <= i < |ds| ensures IsRadixDigit(ds[i], 16) {
      assert ds[i] == u[i + 2];
    }
    RadixPrefixAll(ds, 16);
  }

  /** A "0x" or "0X" switches `parseInt` to base sixteen, with or without a minus sign in
      front: `parseInt("0x1F")` is 31. */
  lemma ParseIntReadsHex(u: string)
    requires HexMarked(u) && |u| > 2 && forall i :: 2 <= i < |u| ==> IsRadixDigit(u[i], 16)
    ensures ParseInt(u) == Some(RadixValue(u[2..], 16))
    ensures ParseInt("-" + u) == Some(-(RadixValue(u[2..], 16) as int))
  {
    HexUnsigned(u);
    TrimStartNoSpace(u);
    var v := "-" + u;
    TrimStartNoSpace(v);
    assert v[1..] == u;
  }

  /** A text that does not start with a decimal digit has no number to read. */
  lemma UnsignedNeedsDigit(u: string)
    requires u == [] || !IsDigit(u[0])
    ensures ParseUnsigned(u).None?
  {
    assert !HexMarked(u);
    assert RadixPrefix(u, 10) == [];
  }

  /** A text with no decimal digit in it is `NaN` to `parseInt`: even the base-sixteen reading
      needs the "0" of its "0x". */
  lemma ParseIntNeedsDigit(s: string)
    requires forall i :: 0 <= i < |s| ==> !IsDigit(s[i])
    ensures ParseInt(s).None?
  {
    var t := TrimStart(s);
    var k := |s| - |t|;
    if t != [] && (t[0] == '-' || t[0] == '+') {
      if |t| > 1 {
        assert t[1] == s[k + 1];
      }
      UnsignedNeedsDigit(t[1..]);
    } else {
      if t != [] {
        assert t[0] == s[k];
      }
      UnsignedNeedsDigit(t);
    }
  }

  /** `String(n)` tells numbers apart. */
  lemma IntToStringInjective(a: int, b: int)
    requires IntToString(a) == IntToString(b)
    ensures a == b
  {
    ParseIntOfString(a);
    ParseIntOfString(b);
  }

  /** `s.replace(/"/g, '""')`: every double quote doubled. */
  function EscapeQuotes(s: string): (r: string)
  {
    if s == [] then []
    else (if s[0] == '"' then "\"\"" else [s[0]]) + EscapeQuotes(s[1..])
  }

  /** Reads one CSV field written as `"` + escaped text + `"`: collapses each doubled quote and
      stops at the first lone quote, returning the text and what follows the closing quote. */
  function ReadQuoted(s: string): (r: Option<(string, string)>)
  {
    if s == [] then None
    else if s[0] == '"' then
      if |s| >= 2 && s[1] == '"' then
        match ReadQuoted(s[2..])
        case None => None
        case Some(p) => Some(("\"" + p.0, p.1))
      else Some(([], s[1..]))
    else
      match ReadQuoted(s[1..])
      case None => None
      case Some(p) => Some(([s[0]] + p.0, p.1))
  }

  /** A quoted, escaped field reads back as the original text, when what follows the closing
      quote does not start with another quote (in a CSV line it is a comma or the line end). */
  lemma {:induction false} ReadQuotedEscape(s: string, rest: string)
    requires rest == [] || rest[0] != '"'
    ensures ReadQuoted(EscapeQuotes(s) + "\"" + rest) == Some((s, rest))
  {
    var w := EscapeQuotes(s) + "\"" + rest;
    if s == [] {
      assert w == ['"'] + rest;
      assert w[1..] == rest;
    } else {
      ReadQuotedEscape(s[1..], rest);
      var tail := EscapeQuotes(s[1..]) + "\"" + rest;
      if s[0] == '"' {
        assert w == ['"', '"'] + tail;
        assert w[2..] == tail;
      } else {
        assert w == [s[0]] + tail;
        assert w[1..] == tail;
      }
      assert s == [s[0]] + s[1..];
    }
  }
}
