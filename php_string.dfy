/**
 * The PHP and Laravel string functions the field relies on, over strings as
 * sequences of characters (one character per byte).
 */
module PhpString {

  /** `s` neither starts nor ends with `c`. */
  predicate Unpadded(s: string, c: char) {
    s == [] || (s[0] != c && s[|s| - 1] != c)
  }

  /** `str_repeat($c, $n)`. */
  function Repeat(c: char, n: nat): (r: string)
    ensures |r| == n
  {
    if n == 0 then [] else Repeat(c, n - 1) + [c]
  }

  /** A run of `c` can grow at the front as well as at the back. */
  lemma {:induction false} RepeatCons(c: char, n: nat)
    ensures [c] + Repeat(c, n) == Repeat(c, n + 1)
  {
    if n > 0 {
      RepeatCons(c, n - 1);
      assert [c] + Repeat(c, n) == ([c] + Repeat(c, n - 1)) + [c];
    }
  }

  /** Appending in two steps is appending the joined sequences. */
  lemma ConcatAssoc<T>(a: seq<T>, b: seq<T>, c: seq<T>)
    ensures (a + b) + c == a + (b + c)
  {
  }

  /** A non-empty sequence is its head followed by its tail. */
  lemma ConsSplit<T>(s: seq<T>)
    requires s != []
    ensures s == [s[0]] + s[1..]
  {
  }

  /** `s` is `r` with `m` copies of `c` in front and `n` behind. */
  predicate PaddedBy(s: string, r: string, c: char, m: nat, n: nat) {
    s == Repeat(c, m) + r + Repeat(c, n)
  }

  /** `Str::startsWith($s, $prefix)` for one needle: an empty needle never matches. */
  predicate StartsWith(s: string, prefix: string)
    ensures prefix == [] ==> !StartsWith(s, prefix)
    ensures StartsWith(s, prefix) <==> prefix != [] && |prefix| <= |s| && s == prefix + s[|prefix|..]
  {
    prefix != [] && prefix <= s
  }

  /** `rtrim($s, $c)`: drops every trailing `c`. */
  function RTrim(s: string, c: char): (r: string)
    ensures r <= s
    ensures r == [] || r[|r| - 1] != c
    decreases |s|
  {
    if |s| > 0 && s[|s| - 1] == c then RTrim(s[..|s| - 1], c) else s
  }

  /** `ltrim($s, $c)`: drops every leading `c`. */
  function LTrim(s: string, c: char): (r: string)
    ensures |r| <= |s| && r == s[|s| - |r|..]
    ensures r == [] || r[0] != c
    decreases |s|
  {
    if |s| > 0 && s[0] == c then LTrim(s[1..], c) else s
  }

  /** `rtrim` drops nothing but `c`: what it drops is a run of `c`. */
  lemma {:induction false} RTrimDropsOnly(s: string, c: char)
    ensures s == RTrim(s, c) + Repeat(c, |s| - |RTrim(s, c)|)
    decreases |s|
  {
    if |s| > 0 && s[|s| - 1] == c {
      var init := s[..|s| - 1];
      RTrimDropsOnly(init, c);
      var n := |init| - |RTrim(init, c)|;
      assert s == init + [c];
      assert RTrim(s, c) == RTrim(init, c);
      assert s == RTrim(init, c) + (Repeat(c, n) + [c]);
    }
  }

  /** One more `c` in front of a run of `c` lengthens the run. */
  lemma RunInFront(c: char, n: nat, tail: string, rest: string)
    requires tail == Repeat(c, n) + rest
    ensures [c] + tail == Repeat(c, n + 1) + rest
  {
    ConcatAssoc([c], Repeat(c, n), rest);
    RepeatCons(c, n);
  }

  /** `ltrim` drops nothing but `c`: what it drops is a run of `c`. */
  lemma {:induction false} LTrimDropsOnly(s: string, c: char)
    ensures s == Repeat(c, |s| - |LTrim(s, c)|) + LTrim(s, c)
    decreases |s|
  {
    if |s| > 0 && s[0] == c {
      var tail := s[1..];
      var rest := LTrim(tail, c);
      LTrimDropsOnly(tail, c);
      var n := |tail| - |rest|;
      assert LTrim(s, c) == rest;
      assert |s| - |LTrim(s, c)| == n + 1;
      calc {
        s;
        { ConsSplit(s); }
        [c] + tail;
        { RunInFront(c, n, tail, rest); }
        Repeat(c, n + 1) + rest;
      }
    } else {
      assert LTrim(s, c) == s;
      assert Repeat(c, 0) + s == s;
    }
  }

  /**
   * What `ltrim(rtrim($s, $c), $c)` keeps of `s`: `s` is the kept part with a
   * run of `c` on either side.
   */
  lemma {:induction false} TrimmedSlice(s: string, c: char)
    ensures exists m: nat, n: nat :: PaddedBy(s, LTrim(RTrim(s, c), c), c, m, n)
  {
    RTrimDropsOnly(s, c);
    LTrimBehindPadding(s, RTrim(s, c), c);
  }

  /** `right` followed by a run of `c` is also `ltrim`'s result with a run of `c` in front. */
  lemma LTrimBehindPadding(s: string, right: string, c: char)
    requires |right| <= |s| && s == right + Repeat(c, |s| - |right|)
    ensures exists m: nat, n: nat :: PaddedBy(s, LTrim(right, c), c, m, n)
  {
    LTrimDropsOnly(right, c);
    assert PaddedBy(s, LTrim(right, c), c, |right| - |LTrim(right, c)|, |s| - |right|);
  }

  /**
   * `trim($s, $c)`: drops `c` at both ends, and nothing else: `s` is the
   * result with a run of `c` on either side.
   */
  function Trim(s: string, c: char): (r: string)
    ensures Unpadded(r, c)
    ensures exists m: nat, n: nat :: PaddedBy(s, r, c, m, n)
  {
    var right := RTrim(s, c);
    var r := LTrim(right, c);
    assert r != [] ==> r[|r| - 1] == right[|right| - 1];
    TrimmedSlice(s, c);
    r
  }

  /** `rtrim` of a string that already has no trailing `c` changes nothing. */
  lemma RTrimIdempotent(s: string, c: char)
    ensures RTrim(RTrim(s, c), c) == RTrim(s, c)
  {
  }

  /**
   * `Filepond::trimSlashes`: `trim(rtrim($path, '/'), '/')`, which drops the
   * slashes at both ends of `path` and nothing else. The inner `rtrim` leaves
   * `trim` nothing more to do at the right end, so the body is the one `trim`;
   * `TrimSlashesAsWritten` proves the two spellings equal.
   */
  function TrimSlashes(path: string): (r: string)
    ensures Unpadded(r, '/')
    ensures |r| <= |path|
    ensures exists m: nat, n: nat :: PaddedBy(path, r, '/', m, n)
  {
    Trim(path, '/')
  }

  /** `trimSlashes` as the source spells it: `trim` applied to the `rtrim` result. */
  lemma TrimSlashesAsWritten(path: string)
    ensures TrimSlashes(path) == Trim(RTrim(path, '/'), '/')
  {
    RTrimIdempotent(path, '/');
  }

  /** A string without an edge `c` is left alone by both one-sided trims. */
  lemma UnpaddedIsUntrimmed(s: string, c: char)
    requires Unpadded(s, c)
    ensures RTrim(s, c) == s && LTrim(s, c) == s
  {
  }

  /** `trimSlashes` leaves a path alone exactly when it has no edge slash. */
  lemma TrimSlashesFixedPoint(s: string)
    ensures TrimSlashes(s) == s <==> Unpadded(s, '/')
  {
    if Unpadded(s, '/') {
      UnpaddedIsUntrimmed(s, '/');
    }
  }

  /** Trimming twice is trimming once. */
  lemma TrimSlashesIdempotent(s: string)
    ensures TrimSlashes(TrimSlashes(s)) == TrimSlashes(s)
  {
    TrimSlashesFixedPoint(TrimSlashes(s));
  }

  /** A trimmed string followed by one slash trims back to itself. */
  lemma TrimTrailingSeparator(dir: string)
    requires Unpadded(dir, '/')
    ensures RTrim(dir + "/", '/') == dir
  {
    assert (dir + "/")[..|dir|] == dir;
    UnpaddedIsUntrimmed(dir, '/');
  }

  /** One slash followed by a trimmed string trims back to that string. */
  lemma TrimLeadingSeparator(name: string)
    requires Unpadded(name, '/')
    ensures LTrim("/" + name, '/') == name
  {
    assert ("/" + name)[1..] == name;
    UnpaddedIsUntrimmed(name, '/');
  }

  /**
   * Trimming `dir + "/" + name` when both halves are already trimmed: the
   * separator survives only between two non-empty halves.
   */
  lemma {:induction false} TrimSlashesJoin(dir: string, name: string)
    requires Unpadded(dir, '/') && Unpadded(name, '/')
    ensures TrimSlashes(dir + "/" + name) ==
            if dir == [] then name
            else if name == [] then dir
            else dir + "/" + name
  {
    var s := dir + "/" + name;
    if dir == [] && name == [] {
      assert s == "/";
      assert RTrim(s, '/') == RTrim([], '/');
    } else if dir == [] {
      assert s == "/" + name;
      TrimSlashesFixedPoint(s);
      assert RTrim(s, '/') == s;
      TrimLeadingSeparator(name);
    } else if name == [] {
      assert s == dir + "/";
      TrimTrailingSeparator(dir);
      UnpaddedIsUntrimmed(dir, '/');
    } else {
      assert s[0] == dir[0] && s[|s| - 1] == name[|name| - 1];
      TrimSlashesFixedPoint(s);
    }
  }

  /** `implode($d, $pieces)`: the pieces joined with `d` between neighbours. */
  function Implode(pieces: seq<string>, d: char): string
    requires |pieces| >= 1
    decreases |pieces|
  {
    if |pieces| == 1 then pieces[0] else pieces[0] + [d] + Implode(pieces[1..], d)
  }

  /**
   * `explode($d, $s)`: the pieces of `s` between occurrences of `d`; there is
   * always at least one, and joining them back gives `s`.
   */
  function Explode(s: string, d: char): (pieces: seq<string>)
    ensures |pieces| >= 1
    decreases |s|
  {
    if s == [] then [[]]
    else
      var rest := Explode(s[1..], d);
      if s[0] == d then [[]] + rest
      else [[s[0]] + rest[0]] + rest[1..]
  }

  /** No piece holds the delimiter, and none is longer than the exploded string. */
  lemma {:induction false} ExplodePieces(s: string, d: char)
    ensures forall p <- Explode(s, d) :: d !in p && |p| <= |s|
    decreases |s|
  {
    if s != [] {
      ExplodePieces(s[1..], d);
    }
  }

  /** Implode of a piece in front of at least one more. */
  lemma ImplodeCons(p: string, rest: seq<string>, d: char)
    requires |rest| >= 1
    ensures Implode([p] + rest, d) == p + [d] + Implode(rest, d)
  {
    assert ([p] + rest)[1..] == rest;
  }

  /** Growing the first piece by one character grows the joined string by that character. */
  lemma ImplodeExtendFirst(c: char, pieces: seq<string>, d: char)
    requires |pieces| >= 1
    ensures Implode([[c] + pieces[0]] + pieces[1..], d) == [c] + Implode(pieces, d)
  {
    if |pieces| > 1 {
      ImplodeCons([c] + pieces[0], pieces[1..], d);
      ImplodeCons(pieces[0], pieces[1..], d);
      assert [pieces[0]] + pieces[1..] == pieces;
    }
  }

  /** Joining the pieces with the delimiter gives the exploded string back. */
  lemma {:induction false} ImplodeExplode(s: string, d: char)
    ensures Implode(Explode(s, d), d) == s
    decreases |s|
  {
    if s != [] {
      var tail := s[1..];
      var rest := Explode(tail, d);
      ImplodeExplode(tail, d);
      assert [s[0]] + tail == s;
      if s[0] == d {
        assert Explode(s, d) == [[]] + rest;
        ImplodeCons([], rest, d);
      } else {
        assert Explode(s, d) == [[s[0]] + rest[0]] + rest[1..];
        ImplodeExtendFirst(s[0], rest, d);
      }
    }
  }

  /** A string without the delimiter explodes into itself alone. */
  lemma {:induction false} ExplodeWithoutDelimiter(s: string, d: char)
    requires d !in s
    ensures Explode(s, d) == [s]
    decreases |s|
  {
    if s != [] {
      ExplodeWithoutDelimiter(s[1..], d);
      assert [s[0]] + s[1..] == s;
    }
  }

  /** The first piece ends at the first delimiter. */
  lemma {:induction false} ExplodeAfterPiece(p: string, d: char, t: string)
    requires d !in p
    ensures Explode(p + [d] + t, d) == [p] + Explode(t, d)
    decreases |p|
  {
    if p != [] {
      assert (p + [d] + t)[1..] == p[1..] + [d] + t;
      ExplodeAfterPiece(p[1..], d, t);
      assert [p[0]] + p[1..] == p;
    } else {
      assert (p + [d] + t)[1..] == t;
    }
  }

  /** Joining pieces free of the delimiter and exploding again gives the pieces back. */
  lemma {:induction false} ExplodeImplode(pieces: seq<string>, d: char)
    requires |pieces| >= 1
    requires forall p <- pieces :: d !in p
    ensures Explode(Implode(pieces, d), d) == pieces
    decreases |pieces|
  {
    if |pieces| == 1 {
      ExplodeWithoutDelimiter(pieces[0], d);
    } else {
      ExplodeImplode(pieces[1..], d);
      ExplodeAfterPiece(pieces[0], d, Implode(pieces[1..], d));
    }
  }

  /** The part of `s` after its last `c` (all of `s` when it has none). */
  function AfterLast(s: string, c: char): (r: string)
    ensures c !in r
    ensures |r| <= |s| && r == s[|s| - |r|..]
    ensures |r| == |s| || s[|s| - |r| - 1] == c
    decreases |s|
  {
    if s == [] || s[|s| - 1] == c then []
    else AfterLast(s[..|s| - 1], c) + [s[|s| - 1]]
  }

  /**
   * `basename($path)`: trailing slashes dropped, then the last path segment,
   * which is the whole slash-free tail of what is left.
   */
  function Basename(path: string): (r: string)
    ensures '/' !in r
    ensures var t := RTrim(path, '/');
            |r| <= |t| && r == t[|t| - |r|..] && (|r| == |t| || t[|t| - |r| - 1] == '/')
  {
    AfterLast(RTrim(path, '/'), '/')
  }
}
