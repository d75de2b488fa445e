/**
 * The parts of Java's `String` API that the password changer relies on, with
 * their Java semantics written out: `toLowerCase`, `equalsIgnoreCase`,
 * `split` with a one-character delimiter, and `String.format` restricted to
 * `%s` conversions. Case folding is ASCII only.
 */
module JavaText {
  import opened Wrappers

  // ---------------------------------------------------------------------------
  // Case folding
  // ---------------------------------------------------------------------------

  function ToLowerChar(c: char): char {
    if 'A' <= c <= 'Z' then (c as int + 32) as char else c
  }

  /** `String.toLowerCase()` on ASCII letters; every other character is kept. */
  function ToLower(s: string): string {
    seq(|s|, i requires 0 <= i < |s| => ToLowerChar(s[i]))
  }

  /** `a.equalsIgnoreCase(b)` on ASCII letters. */
  predicate EqualsIgnoreCase(a: string, b: string) {
    ToLower(a) == ToLower(b)
  }

  /** A delimiter that case folding neither produces nor changes (`:` and `,`). */
  predicate Caseless(d: char) {
    !('A' <= d <= 'Z') && !('a' <= d <= 'z')
  }

  /** Lower-cases every piece of a list. */
  function MapLower(ps: seq<string>): seq<string> {
    seq(|ps|, i requires 0 <= i < |ps| => ToLower(ps[i]))
  }

  /** Lower-casing is idempotent: its result is already lower case. */
  lemma ToLowerIdempotent(s: string)
    ensures ToLower(ToLower(s)) == ToLower(s)
  {
  }

  /** A string without upper-case letters is its own lower case. */
  lemma ToLowerOfLowerCase(s: string)
    requires forall i :: 0 <= i < |s| ==> !('A' <= s[i] <= 'Z')
    ensures ToLower(s) == s
  {
  }

  /** Case folding never turns a caseless delimiter into something else, or something else into it. */
  lemma ToLowerKeepsDelimiter(s: string, d: char)
    requires Caseless(d)
    ensures d in ToLower(s) <==> d in s
  {
    if d in s {
      var i :| 0 <= i < |s| && s[i] == d;
      assert ToLower(s)[i] == d;
    }
    if d in ToLower(s) {
      var i :| 0 <= i < |s| && ToLower(s)[i] == d;
      assert s[i] == d;
    }
  }

  // ---------------------------------------------------------------------------
  // String.split with a one-character delimiter
  // ---------------------------------------------------------------------------

  /** `d` repeated `n` times. */
  function Repeat(d: char, n: nat): string {
    seq(n, _ => d)
  }

  /** Every character of `s` is the delimiter `d`. */
  predicate OnlyDelimiters(s: string, d: char) {
    forall k :: 0 <= k < |s| ==> s[k] == d
  }

  /** Every piece of a list is the empty string. */
  predicate AllEmpty(ps: seq<string>) {
    forall i :: 0 <= i < |ps| ==> ps[i] == ""
  }

  /** The pieces put back together with one delimiter between neighbours. */
  function Join(ps: seq<string>, d: char): string
    requires |ps| >= 1
  {
    if |ps| == 1 then ps[0] else ps[0] + [d] + Join(ps[1..], d)
  }

  /**
   * The string cut at EVERY occurrence of `d`, empty pieces included: a
   * string with k delimiters gives k + 1 pieces. This is the first step of
   * Java's `split`.
   */
  function SplitAll(s: string, d: char): (r: seq<string>)
    ensures |r| >= 1
    decreases |s|
  {
    if s == [] then [""]
    else
      var rest := SplitAll(s[1..], d);
      if s[0] == d then [""] + rest else [[s[0]] + rest[0]] + rest[1..]
  }

  /**
   * The list without its trailing empty pieces: the longest prefix that does
   * not end in "", and everything after it is "".
   */
  function DropTrailingEmpty(ps: seq<string>): (r: seq<string>)
    ensures |r| <= |ps| && r == ps[..|r|]
    ensures forall i :: |r| <= i < |ps| ==> ps[i] == ""
    ensures |r| > 0 ==> r[|r| - 1] != ""
    decreases |ps|
  {
    if |ps| > 0 && ps[|ps| - 1] == "" then DropTrailingEmpty(ps[..|ps| - 1]) else ps
  }

  /**
   * Java's `s.split(d)` (limit 0): when `d` does not occur the result is the
   * whole string as the only element; otherwise the string is cut at every
   * `d` and the trailing empty pieces are removed.
   */
  function JavaSplit(s: string, d: char): seq<string> {
    if d !in s then [s] else DropTrailingEmpty(SplitAll(s, d))
  }

  /** Cutting at every delimiter loses nothing: joining the pieces gives the string back, and no piece holds a delimiter. */
  lemma {:induction false} SplitAllJoin(s: string, d: char)
    ensures Join(SplitAll(s, d), d) == s
    ensures forall i :: 0 <= i < |SplitAll(s, d)| ==> d !in SplitAll(s, d)[i]
    decreases |s|
  {
    if s != [] {
      var rest := SplitAll(s[1..], d);
      SplitAllJoin(s[1..], d);
      var r := SplitAll(s, d);
      if s[0] == d {
        assert r == [""] + rest;
        assert r[1..] == rest;
        assert Join(r, d) == [d] + s[1..];
        assert s == [s[0]] + s[1..];
      } else {
        assert r == [[s[0]] + rest[0]] + rest[1..];
        if |rest| == 1 {
          assert Join(r, d) == [s[0]] + rest[0];
        } else {
          assert r[1..] == rest[1..];
          assert Join(rest, d) == rest[0] + [d] + Join(rest[1..], d);
          assert Join(r, d) == [s[0]] + rest[0] + [d] + Join(rest[1..], d);
        }
        assert s == [s[0]] + s[1..];
        forall i | 0 <= i < |r| ensures d !in r[i] {
          if i > 0 {
            assert r[i] == rest[i];
          }
        }
      }
    }
  }

  /** A string without the delimiter is one piece. */
  lemma {:induction false} SplitAllNoDelimiter(a: string, d: char)
    requires d !in a
    ensures SplitAll(a, d) == [a]
    decreases |a|
  {
    if a != [] {
      SplitAllNoDelimiter(a[1..], d);
      assert [a[0]] + a[1..] == a;
    }
  }

  /** The text before the first delimiter is the first piece; the rest is split on its own. */
  lemma {:induction false} SplitAllAt(a: string, b: string, d: char)
    requires d !in a
    ensures SplitAll(a + [d] + b, d) == [a] + SplitAll(b, d)
    decreases |a|
  {
    var s := a + [d] + b;
    if a == [] {
      assert s[1..] == b;
    } else {
      assert s[0] == a[0];
      assert s[1..] == a[1..] + [d] + b;
      SplitAllAt(a[1..], b, d);
      assert [a[0]] + a[1..] == a;
    }
  }

  /** Splitting undoes joining: pieces free of the delimiter come back unchanged, in order, duplicates kept. */
  lemma {:induction false} JoinSplitAll(ps: seq<string>, d: char)
    requires |ps| >= 1
    requires forall i :: 0 <= i < |ps| ==> d !in ps[i]
    ensures SplitAll(Join(ps, d), d) == ps
    decreases |ps|
  {
    if |ps| == 1 {
      SplitAllNoDelimiter(ps[0], d);
    } else {
      JoinSplitAll(ps[1..], d);
      SplitAllAt(ps[0], Join(ps[1..], d), d);
      assert [ps[0]] + ps[1..] == ps;
    }
  }

  /** A string with k delimiters is cut into k + 1 pieces. */
  lemma {:induction false} SplitAllCount(s: string, d: char)
    ensures |SplitAll(s, d)| == multiset(s)[d] + 1
    decreases |s|
  {
    if s != [] {
      SplitAllCount(s[1..], d);
      assert s == [s[0]] + s[1..];
      assert multiset(s) == multiset([s[0]]) + multiset(s[1..]);
    }
  }

  /** All pieces are empty exactly when the string is made of delimiters only. */
  lemma {:induction false} SplitAllEmptyPieces(s: string, d: char)
    ensures AllEmpty(SplitAll(s, d)) <==> OnlyDelimiters(s, d)
    decreases |s|
  {
    if s != [] {
      SplitAllEmptyPieces(s[1..], d);
      var rest := SplitAll(s[1..], d);
      var r := SplitAll(s, d);
      if s[0] == d {
        assert r == [""] + rest;
        if AllEmpty(rest) {
          assert AllEmpty(r);
        }
        if AllEmpty(r) {
          forall i | 0 <= i < |rest| ensures rest[i] == "" {
            assert rest[i] == r[i + 1];
          }
        }
        if OnlyDelimiters(s[1..], d) {
          forall k | 0 <= k < |s| ensures s[k] == d {
            if k > 0 {
              assert s[k] == s[1..][k - 1];
            }
          }
        }
        if OnlyDelimiters(s, d) {
          forall k | 0 <= k < |s[1..]| ensures s[1..][k] == d {
            assert s[1..][k] == s[k + 1];
          }
        }
      } else {
        assert r[0] == [s[0]] + rest[0];
        assert r[0] != "";
      }
    }
  }

  /** Case folding commutes with cutting at a caseless delimiter. */
  lemma {:induction false} SplitAllLower(s: string, d: char)
    requires Caseless(d)
    ensures SplitAll(ToLower(s), d) == MapLower(SplitAll(s, d))
    decreases |s|
  {
    if s != [] {
      var ls := ToLower(s);
      assert ls[1..] == ToLower(s[1..]);
      SplitAllLower(s[1..], d);
      var rest := SplitAll(s[1..], d);
      assert (ls[0] == d) == (s[0] == d);
      if s[0] == d {
        assert MapLower([""] + rest) == [""] + MapLower(rest);
      } else {
        assert [ls[0]] + ToLower(rest[0]) == ToLower([s[0]] + rest[0]);
        assert MapLower([[s[0]] + rest[0]] + rest[1..])
            == [ToLower([s[0]] + rest[0])] + MapLower(rest)[1..];
      }
    }
  }

  /** Case folding commutes with dropping the trailing empty pieces. */
  lemma {:induction false} DropTrailingEmptyLower(ps: seq<string>)
    ensures DropTrailingEmpty(MapLower(ps)) == MapLower(DropTrailingEmpty(ps))
    decreases |ps|
  {
    if |ps| > 0 {
      var n := |ps|;
      assert MapLower(ps)[n - 1] == ToLower(ps[n - 1]);
      assert (ToLower(ps[n - 1]) == "") == (ps[n - 1] == "");
      assert MapLower(ps)[..n - 1] == MapLower(ps[..n - 1]);
      DropTrailingEmptyLower(ps[..n - 1]);
    }
  }

  /** Case folding commutes with Java's split on a caseless delimiter. */
  lemma JavaSplitLower(s: string, d: char)
    requires Caseless(d)
    ensures JavaSplit(ToLower(s), d) == MapLower(JavaSplit(s, d))
  {
    ToLowerKeepsDelimiter(s, d);
    if d in s {
      SplitAllLower(s, d);
      DropTrailingEmptyLower(SplitAll(s, d));
    } else {
      assert MapLower([s]) == [ToLower(s)];
    }
  }

  /** Any list with the three defining properties of DropTrailingEmpty is its result. */
  lemma DropTrailingEmptyUnique(ps: seq<string>, r: seq<string>)
    requires |r| <= |ps| && r == ps[..|r|]
    requires forall i :: |r| <= i < |ps| ==> ps[i] == ""
    requires |r| > 0 ==> r[|r| - 1] != ""
    ensures DropTrailingEmpty(ps) == r
  {
    var q := DropTrailingEmpty(ps);
    assert |q| == |r|;
  }

  /** When some later piece is non-empty, the leading pieces all survive the drop. */
  lemma DropTrailingEmptyKeepsHead(p: seq<string>, t: seq<string>)
    requires !AllEmpty(t)
    ensures DropTrailingEmpty(p + t) == p + DropTrailingEmpty(t)
    ensures |DropTrailingEmpty(t)| > 0
  {
    var dt := DropTrailingEmpty(t);
    var k :| 0 <= k < |t| && t[k] != "";
    assert |dt| > k;
    var r := p + dt;
    assert (p + t)[..|r|] == r;
    forall i | |r| <= i < |p + t| ensures (p + t)[i] == "" {
      assert (p + t)[i] == t[i - |p|];
    }
    DropTrailingEmptyUnique(p + t, r);
  }

  /** When every later piece is empty, they all go and only the leading part is trimmed. */
  lemma DropTrailingEmptyOfEmptyTail(p: seq<string>, t: seq<string>)
    requires AllEmpty(t)
    ensures DropTrailingEmpty(p + t) == DropTrailingEmpty(p)
  {
    var r := DropTrailingEmpty(p);
    assert (p + t)[..|r|] == r;
    forall i | |r| <= i < |p + t| ensures (p + t)[i] == "" {
      if i >= |p| {
        assert (p + t)[i] == t[i - |p|];
      }
    }
    DropTrailingEmptyUnique(p + t, r);
  }

  /** Joining a list followed by empty pieces appends one delimiter per empty piece. */
  lemma {:induction false} JoinEmptyTail(r: seq<string>, e: seq<string>, d: char)
    requires |r| >= 1 && AllEmpty(e)
    ensures Join(r + e, d) == Join(r, d) + Repeat(d, |e|)
    decreases |r|
  {
    if |r| == 1 {
      JoinAllEmpty(e, d);
      if |e| > 0 {
        assert (r + e)[1..] == e;
        assert Repeat(d, |e|) == [d] + Repeat(d, |e| - 1);
      } else {
        assert r + e == r;
      }
    } else {
      assert (r + e)[1..] == r[1..] + e;
      JoinEmptyTail(r[1..], e, d);
    }
  }

  /** Joining k empty pieces gives k - 1 delimiters. */
  lemma {:induction false} JoinAllEmpty(e: seq<string>, d: char)
    requires AllEmpty(e)
    ensures |e| >= 1 ==> Join(e, d) == Repeat(d, |e| - 1)
    decreases |e|
  {
    if |e| > 1 {
      JoinAllEmpty(e[1..], d);
      assert Repeat(d, |e| - 1) == [d] + Repeat(d, |e| - 2);
    }
  }

  /**
   * What Java's split returns, stated against the input: no piece holds the
   * delimiter; the pieces joined back give the input up to a run of trailing
   * delimiters; an empty result means the input was nothing but delimiters;
   * and an input without the delimiter comes back whole.
   */
  lemma JavaSplitJoin(s: string, d: char)
    ensures var r := JavaSplit(s, d);
      (forall i :: 0 <= i < |r| ==> d !in r[i])
      && (d !in s ==> r == [s])
      && (r != [] ==> var j := Join(r, d); |j| <= |s| && s[..|j|] == j && OnlyDelimiters(s[|j|..], d))
      && (r == [] ==> s != [] && OnlyDelimiters(s, d))
  {
    var r := JavaSplit(s, d);
    if d in s {
      var all := SplitAll(s, d);
      SplitAllJoin(s, d);
      var e := all[|r|..];
      assert all == r + e;
      assert AllEmpty(e) by {
        forall i | 0 <= i < |e| ensures e[i] == "" {
          assert e[i] == all[|r| + i];
        }
      }
      if r != [] {
        JoinEmptyTail(r, e, d);
        var j := Join(r, d);
        assert s == j + Repeat(d, |e|);
        assert s[..|j|] == j;
        assert s[|j|..] == Repeat(d, |e|);
      } else {
        JoinAllEmpty(e, d);
        assert s == Repeat(d, |e| - 1);
      }
    }
  }

  // ---------------------------------------------------------------------------
  // String.format with %s conversions only
  // ---------------------------------------------------------------------------

  /** Why `String.format` throws: a `%s` with no argument left, or a conversion other than `%s`. */
  datatype FormatError = MissingArgument | UnsupportedConversion

  /** Puts `p` in front of a formatted text, passing an error through. */
  function Prepend(p: string, r: Result<string, FormatError>): Result<string, FormatError> {
    match r
    case Success(t) => Success(p + t)
    case Failure(e) => Failure(e)
  }

  /**
   * `String.format(fmt, args...)` where every `%` opens a `%s`: each `%s` takes
   * the next argument verbatim, other characters are copied, and arguments
   * left over at the end are ignored.
   */
  function Format(fmt: string, args: seq<string>): Result<string, FormatError>
    decreases |fmt|
  {
    if fmt == [] then Success("")
    else if fmt[0] != '%' then Prepend([fmt[0]], Format(fmt[1..], args))
    else if |fmt| >= 2 && fmt[1] == 's' then
      if args == [] then Failure(MissingArgument)
      else Prepend(args[0], Format(fmt[2..], args[1..]))
    else Failure(UnsupportedConversion)
  }

  /** Text without `%` is copied unchanged, whatever the arguments. */
  lemma {:induction false} FormatLiteral(lit: string, args: seq<string>)
    requires '%' !in lit
    ensures Format(lit, args) == Success(lit)
    decreases |lit|
  {
    if lit != [] {
      FormatLiteral(lit[1..], args);
      assert [lit[0]] + lit[1..] == lit;
    }
  }

  /** A `%s` after a `%`-free prefix is replaced by the first argument, verbatim. */
  lemma {:induction false} FormatSlot(lit: string, rest: string, a: string, args: seq<string>)
    requires '%' !in lit
    ensures Format(lit + "%s" + rest, [a] + args) == Prepend(lit + a, Format(rest, args))
    decreases |lit|
  {
    var f := lit + "%s" + rest;
    if lit == [] {
      assert f == "%s" + rest;
      assert f[0] == '%' && f[1] == 's' && f[2..] == rest;
      assert lit + a == a;
      assert ([a] + args)[1..] == args;
    } else {
      assert f[0] == lit[0];
      assert f[1..] == lit[1..] + "%s" + rest;
      FormatSlot(lit[1..], rest, a, args);
      assert Format(f, [a] + args) == Prepend([lit[0]], Format(f[1..], [a] + args));
      assert [lit[0]] + (lit[1..] + a) == lit + a;
      match Format(rest, args)
      case Success(t) =>
        assert [lit[0]] + (lit[1..] + a + t) == lit + a + t;
      case Failure(e) =>
    }
  }

  /** A format with two `%s` slots takes the first two arguments verbatim and ignores the rest. */
  lemma FormatTwoSlots(l0: string, l1: string, l2: string, a: string, b: string, extra: seq<string>)
    requires '%' !in l0 && '%' !in l1 && '%' !in l2
    ensures Format(l0 + "%s" + l1 + "%s" + l2, [a, b] + extra) == Success(l0 + a + l1 + b + l2)
  {
    var rest := l1 + "%s" + l2;
    var more := [b] + extra;
    assert Format(rest, more) == Success(l1 + b + l2) by {
      FormatLiteral(l2, extra);
      FormatSlot(l1, l2, b, extra);
    }
    assert Format(l0 + "%s" + rest, [a] + more) == Prepend(l0 + a, Format(rest, more)) by {
      FormatSlot(l0, rest, a, more);
    }
    assert [a, b] + extra == [a] + more;
    assert l0 + "%s" + l1 + "%s" + l2 == l0 + "%s" + rest;
    assert l0 + a + (l1 + b + l2) == l0 + a + l1 + b + l2;
  }

  /** A format with three `%s` slots takes the first three arguments verbatim, in order. */
  lemma FormatThreeSlots(l0: string, l1: string, l2: string, l3: string, a: string, b: string, c: string)
    requires '%' !in l0 && '%' !in l1 && '%' !in l2 && '%' !in l3
    ensures Format(l0 + "%s" + l1 + "%s" + l2 + "%s" + l3, [a, b, c]) == Success(l0 + a + l1 + b + l2 + c + l3)
  {
    var rest := l1 + "%s" + l2 + "%s" + l3;
    assert Format(rest, [b, c]) == Success(l1 + b + l2 + c + l3) by {
      FormatTwoSlots(l1, l2, l3, b, c, []);
      assert [b, c] + [] == [b, c];
    }
    assert Format(l0 + "%s" + rest, [a] + [b, c]) == Prepend(l0 + a, Format(rest, [b, c])) by {
      FormatSlot(l0, rest, a, [b, c]);
    }
    assert [a, b, c] == [a] + [b, c];
    PrependFive(l0 + "%s", l1, "%s", l2, "%s", l3);
    PrependFive(l0 + a, l1, b, l2, c, l3);
  }

  /** Regrouping a concatenation of six strings after its first one. */
  lemma PrependFive(p: string, x1: string, x2: string, x3: string, x4: string, x5: string)
    ensures p + x1 + x2 + x3 + x4 + x5 == p + (x1 + x2 + x3 + x4 + x5)
  {
    assert p + x1 + x2 == p + (x1 + x2);
    assert p + (x1 + x2) + x3 == p + (x1 + x2 + x3);
    assert p + (x1 + x2 + x3) + x4 == p + (x1 + x2 + x3 + x4);
    assert p + (x1 + x2 + x3 + x4) + x5 == p + (x1 + x2 + x3 + x4 + x5);
  }

  /** Arguments beyond those the format consumes change nothing. */
  lemma {:induction false} FormatIgnoresExtraArguments(fmt: string, args: seq<string>, extra: seq<string>)
    requires Format(fmt, args).Success?
    ensures Format(fmt, args + extra) == Format(fmt, args)
    decreases |fmt|
  {
    if fmt != [] {
      if fmt[0] != '%' {
        FormatIgnoresExtraArguments(fmt[1..], args, extra);
      } else {
        assert (args + extra)[1..] == args[1..] + extra;
        FormatIgnoresExtraArguments(fmt[2..], args[1..], extra);
      }
    }
  }
}
