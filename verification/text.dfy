/**
 * The string helpers the web front end relies on: Python's `str.split` with a
 * one-character separator, `str.join`, ASCII `str.capitalize`, the
 * `snake_to_human` label formatter, and decimal rendering of a natural number.
 */
module Text {

  /** Python's `s.split(sep)` for a one-character separator: the pieces
      between successive occurrences of `sep`, so never an empty list. */
  function Split(s: string, sep: char): (parts: seq<string>)
    ensures |parts| == Occurrences(s, sep) + 1
    decreases |s|
  {
    if |s| == 0 then [""]
    else
      var rest := Split(s[1..], sep);
      if s[0] == sep then [""] + rest
      else [[s[0]] + rest[0]] + rest[1..]
  }

  /** Python's `sep.join(parts)`. */
  function Join(parts: seq<string>, sep: char): string
  {
    if |parts| == 0 then ""
    else if |parts| == 1 then parts[0]
    else parts[0] + [sep] + Join(parts[1..], sep)
  }

  /** How many times `c` occurs in `s`. */
  function Occurrences(s: string, c: char): nat
  {
    if |s| == 0 then 0 else (if s[0] == c then 1 else 0) + Occurrences(s[1..], c)
  }

  /** No piece produced by `Split` contains the separator. */
  lemma {:induction false} SplitPiecesAvoidSeparator(s: string, sep: char)
    ensures forall i :: 0 <= i < |Split(s, sep)| ==> sep !in Split(s, sep)[i]
    decreases |s|
  {
    if |s| > 0 {
      SplitPiecesAvoidSeparator(s[1..], sep);
    }
  }

  lemma JoinConsHead(c: char, x: string, tail: seq<string>, sep: char)
    ensures Join([[c] + x] + tail, sep) == [c] + Join([x] + tail, sep)
  {
    assert ([[c] + x] + tail)[1..] == tail;
    assert ([x] + tail)[1..] == tail;
  }

  /** Joining the pieces back with the separator gives the original string. */
  lemma {:induction false} JoinSplit(s: string, sep: char)
    ensures Join(Split(s, sep), sep) == s
    decreases |s|
  {
    if |s| > 0 {
      var rest := Split(s[1..], sep);
      JoinSplit(s[1..], sep);
      if s[0] == sep {
        assert ([""] + rest)[1..] == rest;
      } else {
        assert [[s[0]] + rest[0]] + rest[1..] == Split(s, sep);
        assert [rest[0]] + rest[1..] == rest;
        JoinConsHead(s[0], rest[0], rest[1..], sep);
      }
      assert s == [s[0]] + s[1..];
    }
  }

  /** A string without the separator splits into itself alone. */
  lemma {:induction false} SplitWithoutSeparator(s: string, sep: char)
    requires sep !in s
    ensures Split(s, sep) == [s]
    decreases |s|
  {
    if |s| > 0 {
      SplitWithoutSeparator(s[1..], sep);
      assert [s[0]] + s[1..] == s;
    }
  }

  /** Splitting `a + sep + t` where `a` has no separator yields `a` first. */
  lemma {:induction false} SplitAfterPiece(a: string, sep: char, t: string)
    requires sep !in a
    ensures Split(a + [sep] + t, sep) == [a] + Split(t, sep)
    decreases |a|
  {
    var s := a + [sep] + t;
    if |a| == 0 {
      assert s[1..] == t;
    } else {
      assert s[1..] == a[1..] + [sep] + t;
      SplitAfterPiece(a[1..], sep, t);
      assert [a[0]] + a[1..] == a;
    }
  }

  /** The other round trip: splitting a join of separator-free pieces
      gives back the pieces. */
  lemma {:induction false} SplitJoin(parts: seq<string>, sep: char)
    requires |parts| >= 1
    requires forall i :: 0 <= i < |parts| ==> sep !in parts[i]
    ensures Split(Join(parts, sep), sep) == parts
    decreases |parts|
  {
    if |parts| == 1 {
      SplitWithoutSeparator(parts[0], sep);
    } else {
      SplitJoin(parts[1..], sep);
      SplitAfterPiece(parts[0], sep, Join(parts[1..], sep));
      assert [parts[0]] + parts[1..] == parts;
    }
  }

  /** Two separator-free pieces around one separator split back apart. */
  lemma SplitTwo(a: string, sep: char, b: string)
    requires sep !in a && sep !in b
    ensures Split(a + [sep] + b, sep) == [a, b]
  {
    assert Join([a, b], sep) == a + [sep] + Join([b], sep);
    SplitJoin([a, b], sep);
  }

  /** ASCII upper-casing; every other character is left alone. */
  function UpperChar(c: char): (u: char)
    ensures 'a' <= c <= 'z' ==> 'A' <= u <= 'Z' && u as int - c as int == 'A' as int - 'a' as int
    ensures !('a' <= c <= 'z') ==> u == c
  {
    if 'a' <= c <= 'z' then (c as int - 'a' as int + 'A' as int) as char else c
  }

  /** ASCII lower-casing; every other character is left alone. */
  function LowerChar(c: char): (l: char)
    ensures 'A' <= c <= 'Z' ==> 'a' <= l <= 'z' && l as int - c as int == 'a' as int - 'A' as int
    ensures !('A' <= c <= 'Z') ==> l == c
  {
    if 'A' <= c <= 'Z' then (c as int - 'A' as int + 'a' as int) as char else c
  }

  function LowerAll(w: string): (l: string)
    ensures |l| == |w|
    ensures forall i :: 0 <= i < |w| ==> l[i] == LowerChar(w[i])
  {
    seq(|w|, i requires 0 <= i < |w| => LowerChar(w[i]))
  }

  /** Python's `str.capitalize` on ASCII text: first character upper-cased,
      the rest lower-cased. */
  function Capitalize(w: string): string
  {
    if |w| == 0 then "" else [UpperChar(w[0])] + LowerAll(w[1..])
  }

  function CapitalizeAll(words: seq<string>): seq<string>
  {
    seq(|words|, i requires 0 <= i < |words| => Capitalize(words[i]))
  }

  /** `snake_to_human`: split on `_`, capitalize every word, join with spaces.
      It keeps the length, turns every `_` into a space, and upper-cases the
      first character of each word while lower-casing the rest. */
  function SnakeToHuman(snake: string): (human: string)
    ensures |human| == |snake|
    ensures forall i :: 0 <= i < |snake| ==> human[i] == HumanChar(snake, i)
  {
    var ws := Split(snake, '_');
    assert CapitalizeAll(ws) == [CaseWord(true, ws[0])] + CapitalizeAll(ws[1..]);
    assert Join(CapitalizeAll(ws), ' ') == HumanFrom(snake, true);
    HumanFromPositionwise(snake, true);
    Join(CapitalizeAll(ws), ' ')
  }

  /** What `snake_to_human` puts at position `i`, stated one character at a
      time: a space for `_`; an upper-cased character at the start of a word
      (position 0, or right after `_`; `wordStart` says which holds at 0);
      a lower-cased one elsewhere. */
  function HumanCharFrom(snake: string, wordStart: bool, i: nat): char
    requires i < |snake|
  {
    if snake[i] == '_' then ' '
    else if (if i == 0 then wordStart else snake[i - 1] == '_') then UpperChar(snake[i])
    else LowerChar(snake[i])
  }

  function HumanChar(snake: string, i: nat): char
    requires i < |snake|
  {
    HumanCharFrom(snake, true, i)
  }

  function CaseWord(upperFirst: bool, w: string): string
  {
    if upperFirst then Capitalize(w) else LowerAll(w)
  }

  /** The join of the words of `s` where the first word is capitalized only
      when `wordStart` holds. */
  function HumanFrom(s: string, wordStart: bool): string
  {
    var words := Split(s, '_');
    Join([CaseWord(wordStart, words[0])] + CapitalizeAll(words[1..]), ' ')
  }

  lemma HumanFromEmpty(b: bool)
    ensures HumanFrom("", b) == ""
  {
    assert Split("", '_') == [""];
    assert HumanFrom("", b) == Join([CaseWord(b, "")], ' ');
  }

  /** A leading `_` becomes a space and starts a new word. */
  lemma HumanFromUnderscore(s: string, b: bool)
    requires |s| > 0 && s[0] == '_'
    ensures HumanFrom(s, b) == [' '] + HumanFrom(s[1..], true)
  {
    var ws := Split(s[1..], '_');
    assert Split(s, '_') == [""] + ws;
    assert ([""] + ws)[1..] == ws;
    assert CapitalizeAll(ws) == [CaseWord(true, ws[0])] + CapitalizeAll(ws[1..]);
    var tail := CapitalizeAll(ws);
    assert ([CaseWord(b, "")] + tail)[1..] == tail;
  }

  /** Any other leading character is cased by `b` and continues the word. */
  lemma HumanFromLetter(s: string, b: bool)
    requires |s| > 0 && s[0] != '_'
    ensures HumanFrom(s, b) == [if b then UpperChar(s[0]) else LowerChar(s[0])] + HumanFrom(s[1..], false)
  {
    var ws := Split(s[1..], '_');
    var c := if b then UpperChar(s[0]) else LowerChar(s[0]);
    assert Split(s, '_') == [[s[0]] + ws[0]] + ws[1..];
    assert CaseWord(b, [s[0]] + ws[0]) == [c] + CaseWord(false, ws[0]) by {
      assert ([s[0]] + ws[0])[1..] == ws[0];
      assert LowerAll([s[0]] + ws[0]) == [LowerChar(s[0])] + LowerAll(ws[0]);
    }
    JoinConsHead(c, CaseWord(false, ws[0]), CapitalizeAll(ws[1..]), ' ');
  }

  lemma {:induction false} HumanFromPositionwise(s: string, b: bool)
    ensures |HumanFrom(s, b)| == |s|
    ensures forall i :: 0 <= i < |s| ==> HumanFrom(s, b)[i] == HumanCharFrom(s, b, i)
    decreases |s|
  {
    if |s| == 0 {
      HumanFromEmpty(b);
    } else {
      var t := s[1..];
      var b' := s[0] == '_';
      if b' {
        HumanFromUnderscore(s, b);
      } else {
        HumanFromLetter(s, b);
      }
      HumanFromPositionwise(t, b');
      forall i | 0 <= i < |s|
        ensures HumanFrom(s, b)[i] == HumanCharFrom(s, b, i)
      {
        if i > 0 {
          assert HumanFrom(s, b)[i] == HumanFrom(t, b')[i - 1];
          assert t[i - 1] == s[i];
          assert i - 1 > 0 ==> t[i - 2] == s[i - 1];
        }
      }
    }
  }

  /** A decimal digit for `d < 10`. */
  function Digit(d: nat): (c: char)
    requires d < 10
    ensures '0' <= c <= '9'
    ensures c as int - '0' as int == d
  {
    ('0' as int + d) as char
  }

  /** Python's `str(n)` for a natural number: its decimal digits. */
  function Decimal(n: nat): (s: string)
    ensures |s| >= 1
    ensures forall i :: 0 <= i < |s| ==> '0' <= s[i] <= '9'
    ensures DigitsValue(s) == n
    ensures n == 0 <==> s == "0"
    ensures n > 0 ==> s[0] != '0'
  {
    if n < 10 then [Digit(n)]
    else
      var s := Decimal(n / 10) + [Digit(n % 10)];
      assert s[..|s| - 1] == Decimal(n / 10);
      s
  }

  /** The number a string of decimal digits denotes, read most significant
      digit first: each further digit multiplies what was read by ten. */
  function DigitsValue(s: string): int
  {
    if |s| == 0 then 0 else DigitsValue(s[..|s| - 1]) * 10 + (s[|s| - 1] as int - '0' as int)
  }
}
