/**
  Go strings as the logger uses them.

  A Go string is a sequence of bytes: `len` counts bytes and slicing cuts at
  byte offsets. Here a byte is a character whose code is below 256, so that
  the logger's constants can be written as string literals. The module gives
  the one library operation the logger relies on, `strings.ReplaceAll` with
  the one-byte pattern "\n", and `strings.Split`/`strings.Join` on "\n",
  which the logger does not call but its properties about lines are stated
  with.
 */
module GoStrings {

  /** One byte of a Go string. */
  type Byte = c: char | c as int < 256 witness '\0'

  /** A Go string. */
  type Bytes = seq<Byte>

  /** The newline byte "\n". */
  const LF: Byte := '\n'

  /** The number of newline bytes in `s`. */
  function NewlineCount(s: Bytes): (n: nat)
    ensures n <= |s|
  {
    if s == [] then 0
    else (if s[0] == LF then 1 else 0) + NewlineCount(s[1..])
  }

  /** A string has no newline exactly when its newline count is zero. */
  lemma {:induction false} NewlineCountZero(s: Bytes)
    ensures NewlineCount(s) == 0 <==> LF !in s
  {
    if s != [] {
      NewlineCountZero(s[1..]);
      assert s == [s[0]] + s[1..];
    }
  }

  /** Newlines of a concatenation add up. */
  lemma {:induction false} NewlineCountConcat(a: Bytes, b: Bytes)
    ensures NewlineCount(a + b) == NewlineCount(a) + NewlineCount(b)
  {
    if a != [] {
      NewlineCountConcat(a[1..], b);
      assert (a + b)[0] == a[0] && (a + b)[1..] == a[1..] + b;
    } else {
      assert a + b == b;
    }
  }

  /** `strings.ReplaceAll(s, "\n", repl)`: every newline byte of `s`,
      scanning left to right, is replaced by `repl`; the other bytes are kept. */
  function ReplaceAllNewline(s: Bytes, repl: Bytes): (r: Bytes)
    ensures |s| == 0 ==> r == []
  {
    if s == [] then []
    else (if s[0] == LF then repl else [s[0]]) + ReplaceAllNewline(s[1..], repl)
  }

  /** Each newline grows into `repl`; every other byte stays one byte. */
  lemma {:induction false} ReplaceAllNewlineLength(s: Bytes, repl: Bytes)
    ensures |ReplaceAllNewline(s, repl)| == |s| - NewlineCount(s) + NewlineCount(s) * |repl|
  {
    if s != [] {
      ReplaceAllNewlineLength(s[1..], repl);
      var k := NewlineCount(s[1..]);
      if s[0] == LF {
        assert NewlineCount(s) == k + 1;
        assert (k + 1) * |repl| == k * |repl| + |repl|;
      }
    }
  }

  /** Putting `p` after every newline adds |p| bytes per newline. */
  lemma PrefixNewlinesLength(s: Bytes, p: Bytes)
    ensures |ReplaceAllNewline(s, [LF] + p)| == |s| + NewlineCount(s) * |p|
  {
    ReplaceAllNewlineLength(s, [LF] + p);
    var k := NewlineCount(s);
    assert k * (1 + |p|) == k + k * |p|;
  }

  /** A string without newlines is left as it is. */
  lemma {:induction false} ReplaceAllNewlineNone(s: Bytes, repl: Bytes)
    requires LF !in s
    ensures ReplaceAllNewline(s, repl) == s
  {
    if s != [] {
      assert s[0] != LF;
      assert LF !in s[1..] by { assert forall i :: 0 <= i < |s[1..]| ==> s[1..][i] == s[i + 1]; }
      ReplaceAllNewlineNone(s[1..], repl);
      assert s == [s[0]] + s[1..];
    }
  }

  /** Rewriting newlines distributes over concatenation. */
  lemma {:induction false} ReplaceAllNewlineConcat(a: Bytes, b: Bytes, repl: Bytes)
    ensures ReplaceAllNewline(a + b, repl) == ReplaceAllNewline(a, repl) + ReplaceAllNewline(b, repl)
  {
    if a == [] {
      assert a + b == b;
    } else {
      var head := if a[0] == LF then repl else [a[0]];
      ReplaceAllNewlineConcat(a[1..], b, repl);
      assert (a + b)[0] == a[0] && (a + b)[1..] == a[1..] + b;
      calc {
        ReplaceAllNewline(a + b, repl);
        head + ReplaceAllNewline(a[1..] + b, repl);
        head + (ReplaceAllNewline(a[1..], repl) + ReplaceAllNewline(b, repl));
        (head + ReplaceAllNewline(a[1..], repl)) + ReplaceAllNewline(b, repl);
        ReplaceAllNewline(a, repl) + ReplaceAllNewline(b, repl);
      }
    }
  }

  /** A string with a single newline gets `repl` in its place. */
  lemma ReplaceAllNewlineOne(a: Bytes, b: Bytes, repl: Bytes)
    requires LF !in a && LF !in b
    ensures ReplaceAllNewline(a + [LF] + b, repl) == a + repl + b
  {
    ReplaceAllNewlineNone(a, repl);
    ReplaceAllNewlineNone(b, repl);
    ReplaceAllNewlineConcat(a, [LF] + b, repl);
    ReplaceAllNewlineConcat([LF], b, repl);
    assert ReplaceAllNewline([LF], repl) == repl;
    assert a + [LF] + b == a + ([LF] + b);
  }

  /** `strings.Split(s, "\n")`: the pieces of `s` between newline bytes. */
  function Split(s: Bytes): (r: seq<Bytes>)
    ensures |r| >= 1
  {
    if s == [] then [[]]
    else
      var rest := Split(s[1..]);
      if s[0] == LF then [[]] + rest
      else [[s[0]] + rest[0]] + rest[1..]
  }

  /** A string with k newline bytes has k + 1 pieces. */
  lemma {:induction false} SplitLength(s: Bytes)
    ensures |Split(s)| == NewlineCount(s) + 1
  {
    if s != [] {
      SplitLength(s[1..]);
    }
  }

  /** No piece of a split holds a newline. */
  lemma {:induction false} SplitPiecesNoNewline(s: Bytes)
    ensures forall i :: 0 <= i < |Split(s)| ==> LF !in Split(s)[i]
  {
    if s != [] {
      SplitPiecesNoNewline(s[1..]);
      var rest := Split(s[1..]);
      if s[0] != LF {
        assert LF !in [s[0]] + rest[0];
      }
    }
  }

  /** `strings.Join(ls, "\n")`. */
  function Join(ls: seq<Bytes>): Bytes
  {
    if |ls| == 0 then []
    else if |ls| == 1 then ls[0]
    else ls[0] + [LF] + Join(ls[1..])
  }

  /** Every piece of `ls` with `p` in front of it. */
  function Prefixed(p: Bytes, ls: seq<Bytes>): (r: seq<Bytes>)
    ensures |r| == |ls|
  {
    if ls == [] then [] else [p + ls[0]] + Prefixed(p, ls[1..])
  }

  /** The i-th piece of `Prefixed(p, ls)` is `p` followed by the i-th piece of `ls`. */
  lemma {:induction false} PrefixedAt(p: Bytes, ls: seq<Bytes>, i: nat)
    requires i < |ls|
    ensures Prefixed(p, ls)[i] == p + ls[i]
  {
    if i > 0 {
      PrefixedAt(p, ls[1..], i - 1);
    }
  }

  /** A newline in front of `x` adds an empty first piece. */
  lemma SplitLeadingNewline(x: Bytes)
    ensures Split([LF] + x) == [[]] + Split(x)
  {
    assert ([LF] + x)[0] == LF && ([LF] + x)[1..] == x;
  }

  /** Joining the pieces of a split gives back the string. */
  lemma {:induction false} JoinSplit(s: Bytes)
    ensures Join(Split(s)) == s
  {
    if s != [] {
      var rest := Split(s[1..]);
      JoinSplit(s[1..]);
      if s[0] == LF {
        assert Split(s) == [[]] + rest;
        assert Join(Split(s)) == [] + [LF] + Join(rest);
        assert s == [LF] + s[1..];
      } else if |rest| == 1 {
        assert Split(s) == [[s[0]] + rest[0]];
        assert s == [s[0]] + s[1..];
      } else {
        var pieces := Split(s);
        assert pieces == [[s[0]] + rest[0]] + rest[1..];
        assert pieces[1..] == rest[1..];
        assert Join(pieces) == [s[0]] + rest[0] + [LF] + Join(rest[1..]);
        assert Join(rest) == rest[0] + [LF] + Join(rest[1..]);
        assert s == [s[0]] + s[1..];
      }
    }
  }

  /** A string without newlines in front of `x` only lengthens the first piece. */
  lemma {:induction false} SplitPrepend(a: Bytes, x: Bytes)
    requires LF !in a
    ensures Split(a + x) == [a + Split(x)[0]] + Split(x)[1..]
  {
    var sx := Split(x);
    if a != [] {
      assert LF !in a[1..] by { assert forall i :: 0 <= i < |a[1..]| ==> a[1..][i] == a[i + 1]; }
      SplitPrepend(a[1..], x);
      var ax := a + x;
      assert ax[0] == a[0] && ax[1..] == a[1..] + x;
      SplitOtherHead(ax);
      assert [a[0]] + (a[1..] + sx[0]) == a + sx[0] by { assert a == [a[0]] + a[1..]; }
    } else {
      assert a + x == x && a + sx[0] == sx[0];
      assert sx == [sx[0]] + sx[1..];
    }
  }

  /** A first byte other than a newline joins the first piece of the rest. */
  lemma SplitOtherHead(s: Bytes)
    requires s != [] && s[0] != LF
    ensures Split(s) == [[s[0]] + Split(s[1..])[0]] + Split(s[1..])[1..]
  {
  }

  /** Splitting a string that ends in a newline yields a final empty piece. */
  lemma {:induction false} SplitAppendNewline(x: Bytes)
    ensures Split(x + [LF]) == Split(x) + [[]]
  {
    if x == [] {
      assert Split([LF]) == [[]] + Split([]);
    } else {
      SplitAppendNewline(x[1..]);
      assert (x + [LF])[0] == x[0] && (x + [LF])[1..] == x[1..] + [LF];
    }
  }

  /** Replacing every newline by itself changes nothing. */
  lemma {:induction false} ReplaceAllNewlineIdentity(s: Bytes)
    ensures ReplaceAllNewline(s, [LF]) == s
  {
    if s != [] {
      ReplaceAllNewlineIdentity(s[1..]);
      assert s == [s[0]] + s[1..];
    }
  }

  /** Replacing every newline by a newline followed by `p` keeps the number of
      lines and puts `p` at the start of every line but the first. */
  lemma {:induction false} SplitReplaceAllNewline(s: Bytes, p: Bytes)
    requires LF !in p
    ensures Split(ReplaceAllNewline(s, [LF] + p)) == [Split(s)[0]] + Prefixed(p, Split(s)[1..])
  {
    if s != [] {
      SplitReplaceAllNewline(s[1..], p);
      if s[0] == LF {
        ReplaceNewlineStep(s, p);
      } else {
        ReplaceOtherStep(s, p);
      }
    }
  }

  /** The rewritten string is the original's lines joined again, with `p` in
      front of every line but the first. */
  lemma ReplaceAllNewlineAsJoin(s: Bytes, p: Bytes)
    requires LF !in p
    ensures ReplaceAllNewline(s, [LF] + p) == Join([Split(s)[0]] + Prefixed(p, Split(s)[1..]))
  {
    SplitReplaceAllNewline(s, p);
    JoinSplit(ReplaceAllNewline(s, [LF] + p));
  }

  /** The step of SplitReplaceAllNewline for a string that starts with a newline. */
  lemma ReplaceNewlineStep(s: Bytes, p: Bytes)
    requires LF !in p && s != [] && s[0] == LF
    requires Split(ReplaceAllNewline(s[1..], [LF] + p)) == [Split(s[1..])[0]] + Prefixed(p, Split(s[1..])[1..])
    ensures Split(ReplaceAllNewline(s, [LF] + p)) == [Split(s)[0]] + Prefixed(p, Split(s)[1..])
  {
    var r := ReplaceAllNewline(s[1..], [LF] + p);
    var rest := Split(s[1..]);
    ReplaceLeadingNewline(s, [LF] + p);
    assert ([LF] + p) + r == [LF] + (p + r);
    SplitLeadingNewline(p + r);
    PrependPrefixed(p, r, rest);
    assert Split(s) == [[]] + rest;
  }

  /** A leading newline is replaced and the rest is rewritten. */
  lemma ReplaceLeadingNewline(s: Bytes, repl: Bytes)
    requires s != [] && s[0] == LF
    ensures ReplaceAllNewline(s, repl) == repl + ReplaceAllNewline(s[1..], repl)
  {
  }

  /** Putting `p` in front of a string whose pieces after the first are already
      prefixed by `p` prefixes every piece. */
  lemma PrependPrefixed(p: Bytes, r: Bytes, rest: seq<Bytes>)
    requires LF !in p && |rest| >= 1
    requires Split(r) == [rest[0]] + Prefixed(p, rest[1..])
    ensures Split(p + r) == Prefixed(p, rest)
  {
    SplitPrepend(p, r);
  }

  /** The step of SplitReplaceAllNewline for a string that starts with another byte. */
  lemma ReplaceOtherStep(s: Bytes, p: Bytes)
    requires LF !in p && s != [] && s[0] != LF
    requires Split(ReplaceAllNewline(s[1..], [LF] + p)) == [Split(s[1..])[0]] + Prefixed(p, Split(s[1..])[1..])
    ensures Split(ReplaceAllNewline(s, [LF] + p)) == [Split(s)[0]] + Prefixed(p, Split(s)[1..])
  {
    var r := ReplaceAllNewline(s[1..], [LF] + p);
    var rest := Split(s[1..]);
    var sr := Split(r);
    var t := [s[0]] + r;
    assert ReplaceAllNewline(s, [LF] + p) == t;
    assert t[0] == s[0] && t[1..] == r;
    assert Split(t) == [[s[0]] + sr[0]] + sr[1..];
    assert sr[0] == rest[0];
    assert sr[1..] == Prefixed(p, rest[1..]);
    assert Split(s) == [[s[0]] + rest[0]] + rest[1..];
  }
}
