/**
 * Newline framing of a TCP byte stream after UTF-8 decoding, shared by
 * server_src/socket_handler.py and main.py: the receive buffer is split at
 * its first `'\n'` (`buffer.split('\n', 1)`) for as long as it holds one,
 * and message text is trimmed with Python's `str.strip()`.
 */
module Framing {
  import opened Wrappers

  /** The characters for which Python's `str.isspace()` holds. */
  const WHITESPACE: set<char> := {
    '\U{9}', '\U{A}', '\U{B}', '\U{C}', '\U{D}',
    '\U{1C}', '\U{1D}', '\U{1E}', '\U{1F}', '\U{20}',
    '\U{85}', '\U{A0}', '\U{1680}',
    '\U{2000}', '\U{2001}', '\U{2002}', '\U{2003}', '\U{2004}', '\U{2005}', '\U{2006}', '\U{2007}', '\U{2008}', '\U{2009}', '\U{200A}',
    '\U{2028}', '\U{2029}', '\U{202F}', '\U{205F}', '\U{3000}'
  }

  predicate IsSpace(c: char)
  {
    c in WHITESPACE
  }

  /** `s.lstrip()`. */
  function StripLeft(s: string): string
  {
    if |s| > 0 && IsSpace(s[0]) then StripLeft(s[1..]) else s
  }

  /** `s.rstrip()`. */
  function StripRight(s: string): string
  {
    if |s| > 0 && IsSpace(s[|s| - 1]) then StripRight(s[..|s| - 1]) else s
  }

  /** `s.strip()`. */
  function Strip(s: string): string
  {
    StripRight(StripLeft(s))
  }

  /** `lstrip()` leaves a suffix, drops only whitespace, and stops at the first other character. */
  lemma {:induction false} StripLeftSpec(s: string)
    ensures var r := StripLeft(s);
      && |r| <= |s| && r == s[|s| - |r|..]
      && (forall k :: 0 <= k < |s| - |r| ==> IsSpace(s[k]))
      && (r == [] || !IsSpace(r[0]))
    decreases |s|
  {
    if |s| > 0 && IsSpace(s[0]) {
      StripLeftSpec(s[1..]);
    }
  }

  /** `rstrip()` leaves a prefix, drops only whitespace, and stops at the last other character. */
  lemma {:induction false} StripRightSpec(s: string)
    ensures var r := StripRight(s);
      && |r| <= |s| && r == s[..|r|]
      && (forall k :: |r| <= k < |s| ==> IsSpace(s[k]))
      && (r == [] || !IsSpace(r[|r| - 1]))
    decreases |s|
  {
    if |s| > 0 && IsSpace(s[|s| - 1]) {
      StripRightSpec(s[..|s| - 1]);
    }
  }

  /**
   * `strip()` cuts a run of whitespace from each end and nothing else: the
   * result is a slice of `s`, only whitespace lies outside it, and it neither
   * starts nor ends with whitespace.
   */
  lemma StripSpec(s: string)
    ensures var i := |s| - |StripLeft(s)|;
      var r := Strip(s);
      && 0 <= i && i + |r| <= |s| && r == s[i..i + |r|]
      && (forall k :: 0 <= k < i ==> IsSpace(s[k]))
      && (forall k :: i + |r| <= k < |s| ==> IsSpace(s[k]))
      && (r == [] || (!IsSpace(r[0]) && !IsSpace(r[|r| - 1])))
  {
    var l := StripLeft(s);
    var r := StripRight(l);
    StripLeftSpec(s);
    StripRightSpec(l);
    var i := |s| - |l|;
    assert l == s[i..];
    assert r == l[..|r|];
    assert s[i..][..|r|] == s[i..i + |r|];
    forall k | i + |r| <= k < |s|
      ensures IsSpace(s[k])
    {
      assert s[k] == l[k - i];
    }
  }

  /** A message is blank, and skipped, exactly when every character of it is whitespace. */
  lemma StripEmptyIff(s: string)
    ensures Strip(s) == [] <==> forall k :: 0 <= k < |s| ==> IsSpace(s[k])
  {
    StripSpec(s);
    StripLeftSpec(s);
    StripRightSpec(StripLeft(s));
    var l := StripLeft(s);
    var i := |s| - |l|;
    assert l == s[i..];
    assert l == [] || l[0] == s[i];
  }

  /** The position of the first `'\n'` in `b`, if any. */
  function FirstNewline(b: string): (r: Option<nat>)
    ensures r.None? <==> '\n' !in b
    ensures r.Some? ==> r.value < |b| && b[r.value] == '\n' && '\n' !in b[..r.value]
  {
    if |b| == 0 then None
    else if b[0] == '\n' then Some(0)
    else match FirstNewline(b[1..])
      case None => None
      case Some(i) =>
        assert b[1..][..i] == b[1..i + 1];
        assert b[..i + 1] == [b[0]] + b[1..i + 1];
        Some(i + 1)
  }

  /** The segments and the trailing fragment, written back out as the stream they came from. */
  function Join(msgs: seq<string>, rest: string): string
  {
    if msgs == [] then rest else msgs[0] + "\n" + Join(msgs[1..], rest)
  }

  /** No segment nor fragment holds a newline. */
  predicate NewlineFree(msgs: seq<string>, rest: string)
  {
    '\n' !in rest && forall k :: 0 <= k < |msgs| ==> '\n' !in msgs[k]
  }

  /**
   * The loop `while '\n' in buffer: msg, buffer = buffer.split('\n', 1)`:
   * the complete messages of buffer `b` in order, and the fragment left in
   * the buffer.
   */
  function Frames(b: string): (seq<string>, string)
    decreases |b|
  {
    match FirstNewline(b)
    case None => ([], b)
    case Some(i) =>
      var tail := Frames(b[i + 1..]);
      ([b[..i]] + tail.0, tail.1)
  }

  /** Splitting loses nothing and stops at the last newline. */
  lemma {:induction false} FramesSound(b: string)
    ensures NewlineFree(Frames(b).0, Frames(b).1)
    ensures Join(Frames(b).0, Frames(b).1) == b
    decreases |b|
  {
    match FirstNewline(b)
    case None =>
    case Some(i) =>
      var tail := Frames(b[i + 1..]);
      FramesSound(b[i + 1..]);
      assert b == b[..i] + "\n" + b[i + 1..];
      var msgs := [b[..i]] + tail.0;
      assert msgs[0] == b[..i] && msgs[1..] == tail.0;
      forall k | 0 <= k < |msgs|
        ensures '\n' !in msgs[k]
      {
        if k > 0 {
          assert msgs[k] == tail.0[k - 1];
        }
      }
  }

  /** Framing is the only newline-free way to cut a string into messages and a fragment. */
  lemma {:induction false} FramesUnique(msgs: seq<string>, rest: string)
    requires NewlineFree(msgs, rest)
    ensures Frames(Join(msgs, rest)) == (msgs, rest)
    decreases |msgs|
  {
    var b := Join(msgs, rest);
    if msgs != [] {
      var m := msgs[0];
      var tailText := Join(msgs[1..], rest);
      assert b == m + "\n" + tailText;
      assert b[..|m|] == m && b[|m|] == '\n';
      assert b[|m| + 1..] == tailText;
      assert NewlineFree(msgs[1..], rest) by {
        forall k | 0 <= k < |msgs[1..]|
          ensures '\n' !in msgs[1..][k]
        {
          assert msgs[1..][k] == msgs[k + 1];
        }
      }
      FramesUnique(msgs[1..], rest);
      assert b[|m|] in b;
      var j := FirstNewline(b).value;
      assert forall x :: 0 <= x < j ==> b[..j][x] == b[x];
      assert forall x :: 0 <= x < |m| ==> b[x] == m[x];
      assert j == |m|;
      assert msgs == [m] + msgs[1..];
    }
  }

  lemma {:induction false} JoinAppend(a: seq<string>, b: seq<string>, rest: string)
    ensures Join(a + b, rest) == Join(a, Join(b, rest))
    decreases |a|
  {
    if a != [] {
      assert (a + b)[0] == a[0] && (a + b)[1..] == a[1..] + b;
      JoinAppend(a[1..], b, rest);
    } else {
      assert a + b == b;
    }
  }

  /**
   * Receiving the stream in two chunks frames it as receiving it in one:
   * the first chunk's messages come out first, and its fragment is completed
   * by the second chunk.
   */
  lemma FramesAppend(a: string, c: string)
    ensures var first := Frames(a);
      var second := Frames(first.1 + c);
      Frames(a + c) == (first.0 + second.0, second.1)
  {
    var first := Frames(a);
    var second := Frames(first.1 + c);
    FramesSound(a);
    FramesSound(first.1 + c);
    JoinAppend(first.0, second.0, second.1);
    JoinConcat(first.0, first.1, c);
    assert NewlineFree(first.0 + second.0, second.1) by {
      forall k | 0 <= k < |first.0 + second.0|
        ensures '\n' !in (first.0 + second.0)[k]
      {
        if k < |first.0| {
          assert (first.0 + second.0)[k] == first.0[k];
        } else {
          assert (first.0 + second.0)[k] == second.0[k - |first.0|];
        }
      }
    }
    FramesUnique(first.0 + second.0, second.1);
  }

  lemma {:induction false} JoinConcat(msgs: seq<string>, rest: string, c: string)
    ensures Join(msgs, rest) + c == Join(msgs, rest + c)
    decreases |msgs|
  {
    if msgs != [] {
      JoinConcat(msgs[1..], rest, c);
    }
  }
}
