/** Python's view of text: white space, line breaks, sizes in bytes, and splitting. */
module Strings {
  predicate Space(c: char) {
    var n := c as int;
    9 <= n <= 13 || 28 <= n <= 32 || n == 133 || n == 160 || n == 0x1680 || 0x2000 <= n <= 0x200a
    || n == 0x2028 || n == 0x2029 || n == 0x202f || n == 0x205f || n == 0x3000
  }

  predicate LineBreak(c: char) {
    var n := c as int;
    10 <= n <= 13 || 28 <= n <= 30 || n == 133 || n == 0x2028 || n == 0x2029
  }

  predicate Blank(s: string) {
    forall i :: 0 <= i < |s| ==> Space(s[i])
  }

  function Utf8Length(s: string): nat {
    if s == [] then 0
    else
      var n := s[0] as int;
      (if n < 0x80 then 1 else if n < 0x800 then 2 else if n < 0x10000 then 3 else 4) + Utf8Length(s[1..])
  }

  /** The characters that Python's text methods take for white space, and those that end a line for `splitlines`. */
  lemma SpacesAre(c: char)
    ensures Space(c) <==> c in "\t\n\U{b}\U{c}\r\U{1c}\U{1d}\U{1e}\U{1f} \U{85}\U{a0}\U{1680}\U{2028}\U{2029}\U{202f}\U{205f}\U{3000}"
                            || '\U{2000}' <= c <= '\U{200a}'
    ensures LineBreak(c) <==> c in "\n\U{b}\U{c}\r\U{1c}\U{1d}\U{1e}\U{85}\U{2028}\U{2029}"
    ensures LineBreak(c) ==> Space(c)
  {
  }

  /** UTF-8 (section 3 of RFC 3629): how many bytes each character takes, and that those of a text add up. */
  lemma {:induction false} Utf8Sizes(a: string, c: char, b: string)
    ensures Utf8Length(a + [c] + b) == Utf8Length(a) + Utf8Length([c]) + Utf8Length(b)
    ensures Utf8Length("") == 0
    ensures c <= '\U{7f}' ==> Utf8Length([c]) == 1
    ensures '\U{80}' <= c <= '\U{7ff}' ==> Utf8Length([c]) == 2
    ensures '\U{800}' <= c <= '\U{ffff}' ==> Utf8Length([c]) == 3
    ensures '\U{10000}' <= c ==> Utf8Length([c]) == 4
  {
    assert [c][1..] == "";
    if a == "" {
      assert (a + [c] + b)[1..] == b;
    } else {
      Utf8Sizes(a[1..], c, b);
      assert (a + [c] + b)[1..] == a[1..] + [c] + b;
    }
  }

  // ---- Splitting ----

  /** The stretches of `s` between the characters that satisfy `sep`, empty ones included. */
  function Split(s: string, sep: char -> bool): (parts: seq<string>)
    ensures parts != []
  {
    if s == [] then [[]]
    else if sep(s[0]) then [[]] + Split(s[1..], sep)
    else var rest := Split(s[1..], sep); [[s[0]] + rest[0]] + rest[1..]
  }

  lemma {:induction false} SplitParts(s: string, sep: char -> bool)
    ensures forall p, c :: p in Split(s, sep) && c in p ==> !sep(c) && c in s
  {
    if s != [] {
      SplitParts(s[1..], sep);
      var rest := Split(s[1..], sep);
      assert rest[0] in rest && s[0] in s;
      assert forall c :: c in s[1..] ==> c in s;
    }
  }

  lemma {:induction false} SplitWhole(a: string, sep: char -> bool)
    requires forall c :: c in a ==> !sep(c)
    ensures Split(a, sep) == [a]
  {
    if a != [] {
      assert a[0] in a && a == [a[0]] + a[1..];
      SplitWhole(a[1..], sep);
    }
  }

  lemma SplitCons(x: char, rest: string, sep: char -> bool)
    ensures Split([x] + rest, sep) == if sep(x) then [[]] + Split(rest, sep)
                                      else [[x] + Split(rest, sep)[0]] + Split(rest, sep)[1..]
  {
    assert ([x] + rest)[1..] == rest;
  }

  /** A separator divides what stands before it from what stands after it. */
  lemma {:induction false} SplitAt(a: string, c: char, b: string, sep: char -> bool)
    requires sep(c)
    ensures Split(a + [c] + b, sep) == Split(a, sep) + Split(b, sep)
  {
    hide Split;
    if a == [] {
      SplitWhole(a, sep);
      SplitCons(c, b, sep);
      NothingBefore([c], b);
    } else {
      var x, rest := a[0], a[1..];
      assert a == [x] + rest;
      SplitAt(rest, c, b, sep);
      SplitCons(x, rest, sep);
      SplitCons(x, rest + [c] + b, sep);
      Regroup(x, rest, [c], b);
      FirstGrows(x, Split(rest, sep), Split(b, sep));
    }
  }

  lemma Regroup<T>(x: T, rest: seq<T>, c: seq<T>, b: seq<T>)
    ensures [x] + rest + c + b == [x] + (rest + c + b)
  {
  }

  lemma NothingBefore<T>(c: seq<T>, b: seq<T>)
    ensures [] + c + b == c + b
  {
  }

  lemma FirstGrows(c: char, a: seq<string>, b: seq<string>)
    requires a != []
    ensures [[c] + (a + b)[0]] + (a + b)[1..] == [[c] + a[0]] + a[1..] + b
  {
  }
}
