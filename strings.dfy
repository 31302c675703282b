/** The optional value used throughout the model: JavaScript's `undefined`
    (or a rejected promise, for results of calls the model does not see). */
module Wrappers {
  datatype Option<+T> = None | Some(value: T)
}

/** The two JavaScript string operations the core relies on:
    `String.prototype.split` with a one-character separator and
    `String.prototype.includes`. */
module Strings {
  import opened Wrappers

  /** The pieces of `s` between occurrences of `sep`, as `s.split(sep)`
      returns them: always at least one piece, empty pieces kept. */
  function Split(s: string, sep: char): (parts: seq<string>)
    ensures |parts| >= 1
    decreases |s|
  {
    if s == [] then [[]]
    else
      var rest := Split(s[1..], sep);
      if s[0] == sep then [[]] + rest
      else [[s[0]] + rest[0]] + rest[1..]
  }

  /** The inverse of `Split`: the pieces glued back together with `sep`. */
  function Join(parts: seq<string>, sep: char): string
    requires |parts| >= 1
  {
    if |parts| == 1 then parts[0] else parts[0] + [sep] + Join(parts[1..], sep)
  }

  /** The last piece of `s.split(sep)`, which is what `.pop()` returns. */
  function LastPiece(s: string, sep: char): string {
    var parts := Split(s, sep);
    parts[|parts| - 1]
  }

  /** The piece at `i` of `s.split(sep)`, or `undefined` past the end. */
  function PieceAt(s: string, sep: char, i: nat): Option<string> {
    var parts := Split(s, sep);
    if i < |parts| then Some(parts[i]) else None
  }

  /** Splitting and joining again gives back the original string. */
  lemma {:induction false} JoinSplit(s: string, sep: char)
    ensures Join(Split(s, sep), sep) == s
    decreases |s|
  {
    if s != [] {
      var rest := Split(s[1..], sep);
      JoinSplit(s[1..], sep);
      if s[0] == sep {
        assert Split(s, sep)[1..] == rest;
        assert s == [sep] + s[1..];
      } else {
        var parts := Split(s, sep);
        assert parts[0] == [s[0]] + rest[0];
        if |rest| == 1 {
          assert s == [s[0]] + s[1..];
        } else {
          assert parts[1..] == rest[1..];
          assert s == [s[0]] + s[1..];
        }
      }
    }
  }

  /** No piece contains the separator. */
  lemma {:induction false} SplitPiecesFree(s: string, sep: char)
    ensures forall i :: 0 <= i < |Split(s, sep)| ==> sep !in Split(s, sep)[i]
    decreases |s|
  {
    if s != [] {
      SplitPiecesFree(s[1..], sep);
      var rest := Split(s[1..], sep);
      if s[0] != sep {
        assert sep !in rest[0];
        assert sep !in [s[0]] + rest[0];
      }
    }
  }

  /** A string without the separator splits into itself alone. */
  lemma {:induction false} SplitWithoutSep(s: string, sep: char)
    requires sep !in s
    ensures Split(s, sep) == [s]
    decreases |s|
  {
    if s != [] {
      SplitWithoutSep(s[1..], sep);
      assert s == [s[0]] + s[1..];
    }
  }

  /** A separator-free head followed by the separator becomes the first piece. */
  lemma {:induction false} SplitAfterHead(head: string, sep: char, tail: string)
    requires sep !in head
    ensures Split(head + [sep] + tail, sep) == [head] + Split(tail, sep)
    decreases |head|
  {
    var s := head + [sep] + tail;
    if head == [] {
      assert s[0] == sep && s[1..] == tail;
    } else {
      assert s[0] == head[0] && s[1..] == head[1..] + [sep] + tail;
      SplitAfterHead(head[1..], sep, tail);
      assert head == [head[0]] + head[1..];
    }
  }

  /** Joining at least two pieces puts the separator just before the last. */
  lemma {:induction false} JoinLast(parts: seq<string>, sep: char)
    requires |parts| >= 2
    ensures Join(parts, sep) == Join(parts[..|parts| - 1], sep) + [sep] + parts[|parts| - 1]
    decreases |parts|
  {
    if |parts| > 2 {
      JoinLast(parts[1..], sep);
      assert parts[1..][..|parts| - 2] == parts[..|parts| - 1][1..];
    }
  }

  /** The last piece is the text after the last separator, or all of `s`
      when there is no separator. */
  lemma LastPieceIsTail(s: string, sep: char)
    ensures sep !in LastPiece(s, sep)
    ensures sep !in s ==> LastPiece(s, sep) == s
    ensures sep in s ==> |LastPiece(s, sep)| < |s|
                         && s == s[..|s| - |LastPiece(s, sep)| - 1] + [sep] + LastPiece(s, sep)
  {
    var parts := Split(s, sep);
    SplitPiecesFree(s, sep);
    var last := parts[|parts| - 1];
    assert sep !in last;
    if sep !in s {
      SplitWithoutSep(s, sep);
    } else {
      JoinSplit(s, sep);
      if |parts| == 1 {
        assert false;
      }
      JoinLast(parts, sep);
      var init := Join(parts[..|parts| - 1], sep);
      assert s == init + [sep] + last;
      assert s[..|s| - |last| - 1] == init;
    }
  }

  /** `hay.includes(needle)`. */
  function Contains(hay: string, needle: string): bool
    decreases |hay|
  {
    if |hay| < |needle| then false
    else hay[..|needle|] == needle || Contains(hay[1..], needle)
  }

  /** `needle` occurs in `hay` starting at index `i`. */
  ghost predicate OccursAt(hay: string, needle: string, i: int) {
    0 <= i && i + |needle| <= |hay| && hay[i..i + |needle|] == needle
  }

  /** `Contains` holds exactly when the needle occurs at some index. */
  lemma {:induction false} ContainsIff(hay: string, needle: string)
    ensures Contains(hay, needle) <==> exists i :: OccursAt(hay, needle, i)
    decreases |hay|
  {
    if |hay| < |needle| {
      forall i | OccursAt(hay, needle, i) ensures false {
      }
    } else if hay[..|needle|] == needle {
      assert OccursAt(hay, needle, 0);
    } else {
      ContainsIff(hay[1..], needle);
      if Contains(hay, needle) {
        var j :| OccursAt(hay[1..], needle, j);
        assert hay[1..][j..j + |needle|] == hay[j + 1..j + 1 + |needle|];
        assert OccursAt(hay, needle, j + 1);
      } else {
        forall i | OccursAt(hay, needle, i) ensures false {
          assert i > 0;
          assert hay[1..][i - 1..i - 1 + |needle|] == hay[i..i + |needle|];
          assert OccursAt(hay[1..], needle, i - 1);
        }
      }
    }
  }
}
