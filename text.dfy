/**
 * The string handling of `parse_line`: `str.split(sep)`, `str.strip()`, the
 * comment cut at the first `#`, the comma lists of pattern/melody/mix/save
 * lines, the `int()` conversion of a pattern's items (through a parser
 * parameter) and the `line.split('(')[1].split(')')[0]` of a save line.
 */
module Text {
  import opened Wrappers

  /** The characters Python's `str.isspace()` accepts, that `strip()` removes. */
  predicate IsSpace(c: char) {
    c == ' ' || ('\t' <= c <= '\r') || ('\U{1C}' <= c <= '\U{1F}') || c == '\U{85}' || c == '\U{A0}'
    || c == '\U{1680}' || ('\U{2000}' <= c <= '\U{200A}') || c == '\U{2028}' || c == '\U{2029}'
    || c == '\U{202F}' || c == '\U{205F}' || c == '\U{3000}'
  }

  predicate AllSpace(s: string) {
    forall i :: 0 <= i < |s| ==> IsSpace(s[i])
  }

  /** No whitespace at either end. */
  predicate Stripped(s: string) {
    s == [] || (!IsSpace(s[0]) && !IsSpace(s[|s| - 1]))
  }

  /** The pieces joined back together with `sep` between consecutive pieces. */
  function Join(parts: seq<string>, sep: string): string
  {
    if parts == [] then []
    else if |parts| == 1 then parts[0]
    else parts[0] + sep + Join(parts[1..], sep)
  }

  /** `s.split(c)`: the maximal runs of `s` that do not contain `c`, in order. */
  function Split(s: string, c: char): (r: seq<string>)
    ensures |r| >= 1
    ensures forall i :: 0 <= i < |r| ==> c !in r[i]
  {
    if s == [] then [[]]
    else
      var rest := Split(s[1..], c);
      if s[0] == c then [[]] + rest else [[s[0]] + rest[0]] + rest[1..]
  }

  /** The first piece of a split is a prefix of the text. */
  lemma {:induction false} SplitHeadPrefix(s: string, c: char)
    ensures |Split(s, c)[0]| <= |s| && Split(s, c)[0] == s[..|Split(s, c)[0]|]
  {
    if s != [] && s[0] != c {
      SplitHeadPrefix(s[1..], c);
    }
  }

  /** Splitting and joining with the same separator gives the text back. */
  lemma {:induction false} JoinSplit(s: string, c: char)
    ensures Join(Split(s, c), [c]) == s
  {
    if s != [] {
      var rest := Split(s[1..], c);
      JoinSplit(s[1..], c);
      if s[0] == c {
        assert Split(s, c) == [[]] + rest;
        assert ([[]] + rest)[1..] == rest;
      } else {
        var r := [[s[0]] + rest[0]] + rest[1..];
        assert Split(s, c) == r;
        if |rest| == 1 {
          assert Join(r, [c]) == [s[0]] + rest[0];
        } else {
          assert r[1..] == rest[1..];
          assert Join(rest, [c]) == rest[0] + [c] + Join(rest[1..], [c]);
        }
        assert s == [s[0]] + s[1..];
      }
    }
  }

  /** Splitting a join of pieces free of the separator gives the pieces back. */
  lemma {:induction false} SplitJoin(parts: seq<string>, c: char)
    requires |parts| >= 1
    requires forall i :: 0 <= i < |parts| ==> c !in parts[i]
    ensures Split(Join(parts, [c]), c) == parts
  {
    if |parts| == 1 {
      SplitFree(parts[0], c);
    } else {
      SplitJoin(parts[1..], c);
      SplitPrefix(parts[0], Join(parts[1..], [c]), c);
      assert parts == [parts[0]] + parts[1..];
    }
  }

  /** A separator-free text is a single piece. */
  lemma {:induction false} SplitFree(s: string, c: char)
    requires c !in s
    ensures Split(s, c) == [s]
  {
    if s != [] {
      SplitFree(s[1..], c);
      assert s == [s[0]] + s[1..];
    }
  }

  /** The first piece of `a + [c] + b` is `a` when `a` has no `c`; the rest is the split of `b`. */
  lemma {:induction false} SplitPrefix(a: string, b: string, c: char)
    requires c !in a
    ensures Split(a + [c] + b, c) == [a] + Split(b, c)
  {
    if a == [] {
      assert ([c] + b)[1..] == b;
    } else {
      SplitPrefix(a[1..], b, c);
      assert (a + [c] + b)[1..] == a[1..] + [c] + b;
      assert a == [a[0]] + a[1..];
    }
  }

  function TrimStart(s: string): (r: string)
    ensures r == [] || !IsSpace(r[0])
    ensures |r| <= |s| && r == s[|s| - |r|..]
    ensures AllSpace(s[..|s| - |r|])
  {
    if s != [] && IsSpace(s[0]) then
      var r := TrimStart(s[1..]);
      assert s[..|s| - |r|] == [s[0]] + s[1..][..|s| - 1 - |r|];
      r
    else s
  }

  function TrimEnd(s: string): (r: string)
    ensures r == [] || !IsSpace(r[|r| - 1])
    ensures |r| <= |s| && r == s[..|r|]
    ensures AllSpace(s[|r|..])
  {
    if s != [] && IsSpace(s[|s| - 1]) then
      var r := TrimEnd(s[..|s| - 1]);
      assert s[|r|..] == s[..|s| - 1][|r|..] + [s[|s| - 1]];
      r
    else s
  }

  /** `s.strip()`: whitespace removed from both ends. */
  function Strip(s: string): (r: string)
    ensures Stripped(r)
  {
    var t := TrimStart(s);
    var r := TrimEnd(t);
    assert r != [] ==> r[0] == t[0];
    r
  }

  /** The strip of `s` is `s` with only whitespace taken off in front and behind. */
  lemma StripTrims(s: string)
    ensures exists i, j :: 0 <= i <= j <= |s| && Strip(s) == s[i..j] && AllSpace(s[..i]) && AllSpace(s[j..])
  {
    var i, j := StripBounds(s);
    assert Strip(s) == s[i..j] && AllSpace(s[..i]) && AllSpace(s[j..]);
  }

  /** Where the strip of `s` starts and ends within `s`. */
  lemma StripBounds(s: string) returns (i: nat, j: nat)
    ensures i <= j <= |s| && Strip(s) == s[i..j] && AllSpace(s[..i]) && AllSpace(s[j..])
  {
    var t := TrimStart(s);
    var r := TrimEnd(t);
    i, j := TrimmedSlice(s, t, r);
  }

  /** A front trim `t` of `s` and a back trim `r` of `t` together cut a slice out of `s`. */
  lemma TrimmedSlice(s: string, t: string, r: string) returns (i: nat, j: nat)
    requires |t| <= |s| && t == s[|s| - |t|..] && AllSpace(s[..|s| - |t|])
    requires |r| <= |t| && r == t[..|r|] && AllSpace(t[|r|..])
    ensures i <= j <= |s| && r == s[i..j] && AllSpace(s[..i]) && AllSpace(s[j..])
  {
    i := |s| - |t|;
    j := i + |r|;
    assert t[..|r|] == s[i..j];
    assert s[j..] == t[|r|..];
  }

  /** Stripping adds no character: one absent from `s` is absent from its strip. */
  lemma StripKeepsOut(s: string, c: char)
    requires c !in s
    ensures c !in Strip(s)
  {
    StripTrims(s);
    var r := Strip(s);
    assert forall k :: 0 <= k < |r| ==> r[k] in s;
  }

  lemma {:induction false} TrimStartPadded(p: string, t: string)
    requires AllSpace(p)
    requires t == [] || !IsSpace(t[0])
    ensures TrimStart(p + t) == t
  {
    if p != [] {
      assert (p + t)[1..] == p[1..] + t;
      TrimStartPadded(p[1..], t);
    }
  }

  lemma {:induction false} TrimEndPadded(t: string, q: string)
    requires AllSpace(q)
    requires t == [] || !IsSpace(t[|t| - 1])
    ensures TrimEnd(t + q) == t
  {
    if q != [] {
      assert (t + q)[..|t + q| - 1] == t + q[..|q| - 1];
      TrimEndPadded(t, q[..|q| - 1]);
    } else {
      assert t + q == t;
    }
  }

  /**
   * Strip is fully determined: padding a stripped text with whitespace on
   * either side and stripping gives the text back.
   */
  lemma StripPadded(p: string, t: string, q: string)
    requires AllSpace(p) && AllSpace(q) && Stripped(t)
    ensures Strip(p + t + q) == t
  {
    if t == [] {
      assert p + t + q == p + q;
      TrimStartPadded(p + q, []);
      assert p + q + [] == p + q;
    } else {
      assert p + t + q == p + (t + q);
      TrimStartPadded(p, t + q);
      TrimEndPadded(t, q);
    }
  }

  /** A text with no whitespace at either end is its own strip. */
  lemma StripStripped(t: string)
    requires Stripped(t)
    ensures Strip(t) == t
  {
    assert TrimStart(t) == t;
    assert TrimEnd(t) == t;
  }

  /** Stripping twice is stripping once. */
  lemma StripIdempotent(s: string)
    ensures Strip(Strip(s)) == Strip(s)
  {
    StripStripped(Strip(s));
  }

  /** What the comma-list parser yields: non-blank, stripped, comma-free names. */
  predicate IsItem(x: string) {
    x != [] && ',' !in x && Stripped(x)
  }

  /**
   * `[x.strip() for x in s.split(',') if x.strip()]`: the stripped pieces of a
   * comma list, blank pieces dropped.
   */
  function SplitList(s: string): (r: seq<string>)
    ensures forall i :: 0 <= i < |r| ==> IsItem(r[i])
  {
    NonBlankItems(Split(s, ','));
    NonBlank(Split(s, ','))
  }

  function NonBlank(parts: seq<string>): (r: seq<string>)
    ensures |r| <= |parts|
  {
    if parts == [] then []
    else
      var x := Strip(parts[0]);
      var rest := NonBlank(parts[1..]);
      if x == [] then rest else [x] + rest
  }

  /** Filtering a concatenation filters each half. */
  lemma {:induction false} NonBlankAppend(a: seq<string>, b: seq<string>)
    ensures NonBlank(a + b) == NonBlank(a) + NonBlank(b)
  {
    if a == [] {
      assert a + b == b;
    } else {
      assert (a + b)[0] == a[0];
      assert (a + b)[1..] == a[1..] + b;
      NonBlankAppend(a[1..], b);
    }
  }

  /** A single part is dropped when it strips to nothing, and kept stripped otherwise. */
  lemma NonBlankSingle(x: string)
    ensures NonBlank([x]) == if Strip(x) == [] then [] else [Strip(x)]
  {
    assert [x][1..] == [];
  }

  /** A blank part, wherever it stands, is dropped and leaves the other parts in order. */
  lemma NonBlankDropsBlank(a: seq<string>, x: string, b: seq<string>)
    requires Strip(x) == []
    ensures NonBlank(a + [x] + b) == NonBlank(a) + NonBlank(b)
  {
    NonBlankAppend(a + [x], b);
    NonBlankAppend(a, [x]);
    NonBlankSingle(x);
    assert NonBlank(a) + [] == NonBlank(a);
  }

  /** A non-blank part, wherever it stands, is kept stripped between the other parts. */
  lemma NonBlankKeepsItem(a: seq<string>, x: string, b: seq<string>)
    requires Strip(x) != []
    ensures NonBlank(a + [x] + b) == NonBlank(a) + [Strip(x)] + NonBlank(b)
  {
    NonBlankAppend(a + [x], b);
    NonBlankAppend(a, [x]);
    NonBlankSingle(x);
  }

  /** The pieces kept from comma-free parts are proper list items. */
  lemma {:induction false} NonBlankItems(parts: seq<string>)
    requires forall i :: 0 <= i < |parts| ==> ',' !in parts[i]
    ensures forall i :: 0 <= i < |NonBlank(parts)| ==> IsItem(NonBlank(parts)[i])
  {
    if parts != [] {
      var x := Strip(parts[0]);
      StripKeepsOut(parts[0], ',');
      var rest := NonBlank(parts[1..]);
      NonBlankItems(parts[1..]);
      var r := NonBlank(parts);
      if x != [] {
        assert r == [x] + rest;
        forall i | 0 <= i < |r|
          ensures IsItem(r[i])
        {
          if i > 0 {
            assert r[i] == rest[i - 1];
          }
        }
      }
    }
  }

  lemma {:induction false} NonBlankOfItems(items: seq<string>)
    requires forall i :: 0 <= i < |items| ==> IsItem(items[i])
    ensures NonBlank(items) == items
  {
    if items != [] {
      var rest := items[1..];
      assert items == [items[0]] + rest;
      StripStripped(items[0]);
      NonBlankOfItems(rest);
    }
  }

  /**
   * Round trip of the comma-list parser: any list of non-blank, stripped,
   * comma-free names written out comma-separated is read back unchanged
   * (the empty list is written as the empty text).
   */
  lemma SplitListJoin(items: seq<string>)
    requires forall i :: 0 <= i < |items| ==> IsItem(items[i])
    ensures SplitList(Join(items, [','])) == items
  {
    if items == [] {
      assert Split([], ',') == [[]];
      assert Strip([]) == [];
    } else {
      SplitJoin(items, ',');
      NonBlankOfItems(items);
    }
  }

  /** Blank pieces are dropped: `1, ,0` is a list of two items. */
  lemma SplitListSkipsBlank()
    ensures SplitList("1, ,0") == ["1", "0"]
  {
    assert "1, ,0" == "1" + [','] + " ,0";
    assert " ,0" == " " + [','] + "0";
    SplitPrefix("1", " ,0", ',');
    SplitPrefix(" ", "0", ',');
    SplitFree("0", ',');
    assert Split("1, ,0", ',') == ["1", " ", "0"];
    NonBlankSkipsBlank();
  }

  lemma NonBlankSkipsBlank()
    ensures NonBlank(["1", " ", "0"]) == ["1", "0"]
  {
    var parts := ["1", " ", "0"];
    StripStripped("1");
    StripStripped("0");
    assert IsSpace(' ') && " "[1..] == [];
    assert TrimStart(" ") == TrimStart([]) == [];
    assert Strip(" ") == [];
    assert parts[1..][1..] == ["0"] && ["0"][1..] == [];
    assert NonBlank(["0"]) == ["0"] + NonBlank([]);
    assert NonBlank(parts[1..]) == [] + NonBlank(["0"]);
    assert NonBlank(parts) == ["1"] + NonBlank(parts[1..]);
  }

  /** `int(x)` on one list item: None where Python raises ValueError. */
  type IntParser = string -> Option<int>

  /**
   * `list(map(int, items))`: every item converted in order, or None as soon as
   * one item does not convert.
   */
  function ParseInts(items: seq<string>, toInt: IntParser): (r: Option<seq<int>>)
    ensures r.Some? ==> |r.value| == |items| && forall i :: 0 <= i < |items| ==> toInt(items[i]) == Some(r.value[i])
    ensures r.None? <==> exists i :: 0 <= i < |items| && toInt(items[i]).None?
  {
    if items == [] then Some([])
    else
      match toInt(items[0])
      case None => None
      case Some(v) =>
        match ParseInts(items[1..], toInt)
        case None => None
        case Some(vs) => Some([v] + vs)
  }

  /** `line.split('#')[0].strip()`: the code part of a line, without the comment. */
  function StripComment(line: string): (r: string)
    ensures '#' !in r && Stripped(r)
  {
    var code := Split(line, '#')[0];
    var r := Strip(code);
    StripKeepsOut(code, '#');
    r
  }

  /** Whatever follows the first `#` never changes what the line means. */
  lemma CommentIgnored(code: string, comment: string)
    requires '#' !in code
    ensures StripComment(code + ['#'] + comment) == Strip(code)
  {
    SplitPrefix(code, comment, '#');
  }

  /**
   * `line.split('(')[1].split(')')[0]`: the text after the first `(` up to the
   * next `(` or `)`, or None where the source raises IndexError because the
   * line has no `(`.
   */
  function SaveItemsText(line: string): (r: Option<string>)
    ensures r.None? <==> '(' !in line
    ensures r.Some? ==> '(' !in r.value && ')' !in r.value
  {
    var parts := Split(line, '(');
    if |parts| < 2 then
      assert '(' !in line by {
        JoinSplit(line, '(');
        assert Join(parts, ['(']) == parts[0];
      }
      None
    else
      assert '(' in line by {
        JoinSplit(line, '(');
        assert Join(parts, ['(']) == parts[0] + ['('] + Join(parts[1..], ['(']);
      }
      var t := Split(parts[1], ')')[0];
      SplitHeadPrefix(parts[1], ')');
      assert forall k :: 0 <= k < |t| ==> t[k] == parts[1][k];
      Some(t)
  }

  /** A save line `name(items)rest` yields exactly the text between the parentheses. */
  lemma SaveItemsBetweenParens(head: string, items: string, tail: string)
    requires '(' !in head && '(' !in items && ')' !in items
    ensures SaveItemsText(head + ['('] + items + [')'] + tail) == Some(items)
  {
    var line := head + ['('] + items + [')'] + tail;
    assert line == head + ['('] + (items + [')'] + tail);
    SplitPrefix(head, items + [')'] + tail, '(');
    var parts := Split(line, '(');
    var after := Split(items + [')'] + tail, '(');
    assert parts == [head] + after;
    assert items + [')'] + tail == items + [')'] + tail;
    SplitFirstPrefix(items + [')'], tail, '(');
    FirstPieceBeforeParen(items, Split(tail, '(')[0]);
  }

  /** A separator-free start of a text belongs to its first piece. */
  lemma {:induction false} SplitFirstPrefix(a: string, b: string, c: char)
    requires c !in a
    ensures Split(a + b, c)[0] == a + Split(b, c)[0]
  {
    if a == [] {
      assert a + b == b;
    } else {
      var t := a[1..] + b;
      SplitFirstPrefix(a[1..], b, c);
      assert (a + b)[0] == a[0] && (a + b)[1..] == t;
      calc {
        Split(a + b, c)[0];
        [a[0]] + Split(t, c)[0];
        [a[0]] + (a[1..] + Split(b, c)[0]);
        { assert a == [a[0]] + a[1..]; }
        a + Split(b, c)[0];
      }
    }
  }

  lemma FirstPieceBeforeParen(items: string, rest: string)
    requires ')' !in items
    ensures Split(items + [')'] + rest, ')')[0] == items
  {
    SplitPrefix(items, rest, ')');
  }
}
