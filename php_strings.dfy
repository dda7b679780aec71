/**
 * The few PHP string primitives the plugin relies on, with the PHP semantics
 * that matter for it: `empty()`, `substr()` with a start offset, `explode('/')`,
 * ASCII `strtolower()` and the last-character test `$s[strlen($s) - 1]`.
 */
module PhpStrings {

  /** PHP `empty()` on a string: true for "" and for "0". */
  predicate PhpEmpty(s: string) {
    s == "" || s == "0"
  }

  /** `substr(s, n)` for n >= 0: drop the first n characters, "" when s is not longer. */
  function Substr(s: string, n: nat): (r: string)
    ensures n <= |s| ==> s == s[..n] + r
    ensures |s| <= n ==> r == ""
  {
    if n <= |s| then s[n..] else ""
  }

  /** `explode('/', s)`: the pieces between slashes, always at least one. */
  function Explode(s: string): (parts: seq<string>)
    ensures |parts| >= 1
  {
    if s == [] then [""]
    else
      var rest := Explode(s[1..]);
      if s[0] == '/' then [""] + rest
      else [[s[0]] + rest[0]] + rest[1..]
  }

  /** `implode('/', parts)`: the inverse of Explode. */
  function Implode(parts: seq<string>): string {
    if |parts| == 0 then ""
    else if |parts| == 1 then parts[0]
    else parts[0] + "/" + Implode(parts[1..])
  }

  /** Number of slashes in s. */
  function Slashes(s: string): nat {
    if s == [] then 0 else (if s[0] == '/' then 1 else 0) + Slashes(s[1..])
  }

  /** The last piece of `explode('/', s)`, as PHP's `basename` gives it for a URL whose last piece is non-empty. */
  function LastPiece(s: string): string {
    var parts := Explode(s);
    parts[|parts| - 1]
  }

  /** `$s[strlen($s) - 1] == '/'`; on "" the offset reads as "" and the test is false. */
  predicate EndsWithSlash(s: string) {
    |s| > 0 && s[|s| - 1] == '/'
  }

  /** `$s[0] == '/'` on a string the caller knows to be non-empty. */
  predicate StartsWithSlash(s: string) {
    |s| > 0 && s[0] == '/'
  }

  /** ASCII `strtolower` of one character. */
  function LowerChar(c: char): char {
    if 'A' <= c <= 'Z' then (c as int + 32) as char else c
  }

  /** ASCII `strtolower`. */
  function ToLower(s: string): string {
    seq(|s|, i requires 0 <= i < |s| => LowerChar(s[i]))
  }

  /** explode yields one piece more than there are slashes. */
  lemma {:induction false} ExplodeLength(s: string)
    ensures |Explode(s)| == 1 + Slashes(s)
  {
    if s != [] {
      ExplodeLength(s[1..]);
    }
  }

  /** explode splits a string into several pieces exactly when it holds a slash. */
  lemma {:induction false} ExplodeSplitsIffSlash(s: string)
    ensures |Explode(s)| > 1 <==> '/' in s
  {
    ExplodeLength(s);
    SlashesCount(s);
  }

  lemma {:induction false} SlashesCount(s: string)
    ensures Slashes(s) > 0 <==> '/' in s
  {
    if s != [] {
      SlashesCount(s[1..]);
      assert s == [s[0]] + s[1..];
    }
  }

  /** A string without slashes explodes to itself. */
  lemma {:induction false} ExplodeNoSlash(s: string)
    requires '/' !in s
    ensures Explode(s) == [s]
  {
    if s != [] {
      assert s[0] in s;
      assert forall c :: c in s[1..] ==> c in s;
      ExplodeNoSlash(s[1..]);
      assert s == [s[0]] + s[1..];
    }
  }

  /** No piece of explode holds a slash. */
  lemma {:induction false} ExplodePiecesHaveNoSlash(s: string)
    ensures forall k :: 0 <= k < |Explode(s)| ==> '/' !in Explode(s)[k]
  {
    if s != [] {
      ExplodePiecesHaveNoSlash(s[1..]);
      var rest := Explode(s[1..]);
      if s[0] != '/' {
        var parts := Explode(s);
        forall k | 0 <= k < |parts| ensures '/' !in parts[k] {
          if k == 0 {
            assert parts[0] == [s[0]] + rest[0];
          } else {
            assert parts[k] == rest[k];
          }
        }
      }
    }
  }

  /** Joining the pieces of explode with '/' gives the string back. */
  lemma {:induction false} ImplodeExplode(s: string)
    ensures Implode(Explode(s)) == s
  {
    if s != [] {
      ImplodeExplode(s[1..]);
      var rest := Explode(s[1..]);
      if s[0] == '/' {
        assert Explode(s)[1..] == rest;
      } else {
        var parts := Explode(s);
        if |rest| > 1 {
          assert parts[1..] == rest[1..];
        }
      }
    }
  }

  /** One step of explode on a string given as its first character and the rest. */
  lemma ExplodeCons(c: char, t: string)
    ensures Explode([c] + t) ==
      if c == '/' then [""] + Explode(t) else [[c] + Explode(t)[0]] + Explode(t)[1..]
  {
    assert ([c] + t)[1..] == t;
  }

  lemma HeadTailOfConcat(xs: seq<string>, ys: seq<string>)
    requires |xs| >= 1
    ensures (xs + ys)[0] == xs[0] && (xs + ys)[1..] == xs[1..] + ys
  {
  }

  /** explode distributes over a slash. */
  lemma {:induction false} ExplodeConcat(x: string, y: string)
    ensures Explode(x + "/" + y) == Explode(x) + Explode(y)
  {
    if x == [] {
      assert x + "/" + y == [('/')] + y;
      ExplodeCons('/', y);
      assert Explode(x) == [""];
    } else {
      var c, t := x[0], x[1..];
      var ty := t + "/" + y;
      assert x == [c] + t;
      assert x + "/" + y == [c] + ty;
      ExplodeConcat(t, y);
      var xs, ys, rs := Explode(t), Explode(y), Explode(ty);
      assert rs == xs + ys;
      ExplodeCons(c, ty);
      ExplodeCons(c, t);
      if c != '/' {
        HeadTailOfConcat(xs, ys);
        assert Explode([c] + ty) == [[c] + xs[0]] + (xs[1..] + ys);
        assert Explode([c] + t) == [[c] + xs[0]] + xs[1..];
        assert [[c] + xs[0]] + (xs[1..] + ys) == ([[c] + xs[0]] + xs[1..]) + ys;
      } else {
        assert Explode([c] + ty) == [""] + (xs + ys);
        assert Explode([c] + t) == [""] + xs;
        assert [""] + (xs + ys) == ([""] + xs) + ys;
      }
      assert Explode(x + "/" + y) == Explode([c] + ty);
      assert Explode(x) == Explode([c] + t);
    }
  }
}
