/** image_resolve of scripts/runtime/prepare-artifact.py: symbolic links inside an image root, with
    absolute targets taken from that root and absent components kept as they are. */
module ImageResolve {
  type Name = string
  type Path = seq<Name>

  /** What lstat sees under the root; a path not in the map is absent. */
  datatype Node = Link(absolute: bool, parts: Path) | Other

  const MAX_LINKS: nat := 64

  predicate Skipped(c: Name) {
    c in {"", ".", "/"}
  }

  predicate IsLink(fs: map<Path, Node>, p: Path) {
    p in fs && fs[p].Link?
  }

  /** Where resolution ends, and how many links it may still follow there. */
  datatype Outcome = Resolved(path: Path, left: nat) | Escape(left: nat) | Loop

  function Walk(fs: map<Path, Node>, todo: Path, resolved: Path, left: nat): Outcome
    decreases left, |todo|
  {
    if todo == [] then Resolved(resolved, left)
    else
      var c, rest := todo[0], todo[1..];
      if Skipped(c) then Walk(fs, rest, resolved, left)
      else if c == ".." then
        if resolved == [] then Escape(left) else Walk(fs, rest, resolved[..|resolved| - 1], left)
      else if IsLink(fs, resolved + [c]) then
        if left == 0 then Loop
        else
          var l := fs[resolved + [c]];
          Walk(fs, l.parts + rest, if l.absolute then [] else resolved, left - 1)
      else Walk(fs, rest, resolved + [c], left)
  }

  datatype Failure = SymlinkEscape | SymlinkLoop

  datatype Answer = At(path: Path) | Failed(failure: Failure)

  function AnswerOf(o: Outcome): Answer {
    match o
    case Resolved(p, _) => At(p)
    case Escape(_) => Failed(SymlinkEscape)
    case Loop => Failed(SymlinkLoop)
  }

  /** The script's loop. It ends on every file system: each link followed uses up one of the 64, and
      every other step shortens the list. */
  method Resolve(fs: map<Path, Node>, relative: Path) returns (a: Answer)
    ensures a == AnswerOf(Walk(fs, relative, [], MAX_LINKS))
  {
    var todo, resolved: Path := relative, [];
    var links := 0;
    while todo != []
      invariant 0 <= links <= MAX_LINKS
      invariant Walk(fs, relative, [], MAX_LINKS) == Walk(fs, todo, resolved, MAX_LINKS - links)
      decreases MAX_LINKS - links, |todo|
    {
      var component := todo[0];
      todo := todo[1..];
      if Skipped(component) {
        continue;
      }
      if component == ".." {
        if resolved == [] {
          return Failed(SymlinkEscape);
        }
        resolved := resolved[..|resolved| - 1];
        continue;
      }
      var candidate := resolved + [component];
      if candidate in fs && fs[candidate].Link? {
        links := links + 1;
        if links > MAX_LINKS {
          return Failed(SymlinkLoop);
        }
        var target := fs[candidate];
        if target.absolute {
          resolved := [];
        }
        todo := target.parts + todo;
      } else {
        resolved := resolved + [component];
      }
    }
    a := At(resolved);
  }

  // ----- results are canonical, and canonical paths are fixed -----

  predicate Plain(c: Name) {
    !Skipped(c) && c != ".."
  }

  /** No "..", nothing skipped, and no link at the path or above it. */
  predicate Canonical(fs: map<Path, Node>, p: Path) {
    && (forall i :: 0 <= i < |p| ==> Plain(p[i]))
    && (forall n :: 0 < n <= |p| ==> !IsLink(fs, p[..n]))
  }

  lemma CanonicalPrefix(fs: map<Path, Node>, p: Path, n: nat)
    requires Canonical(fs, p) && n <= |p|
    ensures Canonical(fs, p[..n])
  {
    forall k | 0 < k <= n
      ensures !IsLink(fs, p[..n][..k])
    {
      assert p[..n][..k] == p[..k];
    }
  }

  lemma CanonicalGrows(fs: map<Path, Node>, p: Path, c: Name)
    requires Canonical(fs, p) && Plain(c) && !IsLink(fs, p + [c])
    ensures Canonical(fs, p + [c])
  {
    forall k | 0 < k <= |p + [c]|
      ensures !IsLink(fs, (p + [c])[..k])
    {
      if k <= |p| {
        assert (p + [c])[..k] == p[..k];
      } else {
        assert (p + [c])[..k] == p + [c];
      }
    }
  }

  lemma {:induction false} WalkIsCanonical(fs: map<Path, Node>, todo: Path, resolved: Path, left: nat)
    requires Canonical(fs, resolved)
    ensures var o := Walk(fs, todo, resolved, left);
            (o.Resolved? ==> Canonical(fs, o.path)) && (!o.Loop? ==> o.left <= left)
    decreases left, |todo|
  {
    if todo != [] {
      var c, rest := todo[0], todo[1..];
      if Skipped(c) {
        WalkIsCanonical(fs, rest, resolved, left);
      } else if c == ".." {
        if resolved != [] {
          CanonicalPrefix(fs, resolved, |resolved| - 1);
          WalkIsCanonical(fs, rest, resolved[..|resolved| - 1], left);
        }
      } else if IsLink(fs, resolved + [c]) {
        if left > 0 {
          var l := fs[resolved + [c]];
          WalkIsCanonical(fs, l.parts + rest, if l.absolute then [] else resolved, left - 1);
        }
      } else {
        CanonicalGrows(fs, resolved, c);
        WalkIsCanonical(fs, rest, resolved + [c], left);
      }
    }
  }

  lemma {:induction false} CanonicalFrom(fs: map<Path, Node>, p: Path, n: nat, left: nat)
    requires Canonical(fs, p) && n <= |p|
    ensures Walk(fs, p[n..], p[..n], left) == Resolved(p, left)
    decreases |p| - n
  {
    if n == |p| {
      assert p[..n] == p;
    } else {
      assert Plain(p[n]);
      assert p[..n] + [p[n]] == p[..n + 1] && p[n..][1..] == p[n + 1..];
      assert !IsLink(fs, p[..n + 1]);
      CanonicalFrom(fs, p, n + 1, left);
    }
  }

  /** A canonical path resolves to itself without following a link. */
  lemma CanonicalIsFixed(fs: map<Path, Node>, p: Path, left: nat)
    requires Canonical(fs, p)
    ensures Walk(fs, p, [], left) == Resolved(p, left)
  {
    assert p[0..] == p && p[..0] == [];
    CanonicalFrom(fs, p, 0, left);
  }

  /** Every path resolve returns is canonical and is its own resolution. */
  lemma ResolveIsIdempotent(fs: map<Path, Node>, relative: Path)
    requires Walk(fs, relative, [], MAX_LINKS).Resolved?
    ensures var p := Walk(fs, relative, [], MAX_LINKS).path;
            Canonical(fs, p) && Walk(fs, p, [], MAX_LINKS) == Resolved(p, MAX_LINKS)
  {
    WalkIsCanonical(fs, relative, [], MAX_LINKS);
    CanonicalIsFixed(fs, Walk(fs, relative, [], MAX_LINKS).path, MAX_LINKS);
  }

  // ----- resolution composes -----

  function Then(fs: map<Path, Node>, o: Outcome, more: Path): Outcome {
    if o.Resolved? then Walk(fs, more, o.path, o.left) else o
  }

  lemma {:induction false} WalkAppend(fs: map<Path, Node>, todo: Path, more: Path, resolved: Path, left: nat)
    ensures Walk(fs, todo + more, resolved, left) == Then(fs, Walk(fs, todo, resolved, left), more)
    decreases left, |todo|
  {
    if todo == [] {
      assert [] + more == more;
    } else {
      var c, rest := todo[0], todo[1..];
      assert (todo + more)[0] == c && (todo + more)[1..] == rest + more;
      if Skipped(c) {
        WalkAppend(fs, rest, more, resolved, left);
      } else if c == ".." {
        if resolved != [] {
          WalkAppend(fs, rest, more, resolved[..|resolved| - 1], left);
        }
      } else if IsLink(fs, resolved + [c]) {
        if left > 0 {
          var l := fs[resolved + [c]];
          assert l.parts + (rest + more) == (l.parts + rest) + more;
          WalkAppend(fs, l.parts + rest, more, if l.absolute then [] else resolved, left - 1);
        }
      } else {
        WalkAppend(fs, rest, more, resolved + [c], left);
      }
    }
  }

  /** Resolving a directory first and the rest under it gives what resolving the whole path gives,
      apart from the links the directory cost. */
  lemma DirectoryFirst(fs: map<Path, Node>, directory: Path, more: Path, left: nat)
    requires Walk(fs, directory, [], left).Resolved?
    ensures var d := Walk(fs, directory, [], left); Walk(fs, directory + more, [], left) == Walk(fs, d.path + more, [], d.left)
  {
    var d := Walk(fs, directory, [], left);
    WalkAppend(fs, directory, more, [], left);
    WalkIsCanonical(fs, directory, [], left);
    CanonicalIsFixed(fs, d.path, d.left);
    WalkAppend(fs, d.path, more, [], d.left);
  }

  // ----- what ".." and links do -----

  /** The lexical normal form, read from the right: a ".." cancels the nearest name to its left that is not
      cancelled yet. The number says how many ".." find no name. */
  function Lexical(p: Path, ups: nat): (Path, nat) {
    if p == [] then ([], ups)
    else
      var c, before := p[|p| - 1], p[..|p| - 1];
      if Skipped(c) then Lexical(before, ups)
      else if c == ".." then Lexical(before, ups + 1)
      else if ups > 0 then Lexical(before, ups - 1)
      else (Lexical(before, 0).0 + [c], Lexical(before, 0).1)
  }

  lemma WalkOne(fs: map<Path, Node>, c: Name, resolved: Path, left: nat)
    requires !IsLink(fs, resolved + [c]) || !Plain(c)
    ensures Walk(fs, [c], resolved, left)
            == if Skipped(c) then Resolved(resolved, left)
               else if c != ".." then Resolved(resolved + [c], left)
               else if resolved == [] then Escape(left) else Resolved(resolved[..|resolved| - 1], left)
  {
    var rest := [c][1..];
    assert rest == [];
    assert forall p :: Walk(fs, rest, p, left) == Resolved(p, left);
  }

  lemma {:induction false} WalkWithoutLinks(fs: map<Path, Node>, p: Path, left: nat, ups: nat)
    requires forall q :: !IsLink(fs, q)
    ensures var o := Walk(fs, p, [], left);
            match o
            case Resolved(q, n) => n == left && Lexical(p, ups) == if ups <= |q| then (q[..|q| - ups], 0) else ([], ups - |q|)
            case Escape(n) => n == left && Lexical(p, ups).1 > 0
            case Loop => false
    decreases |p|
  {
    if p != [] {
      var c, before := p[|p| - 1], p[..|p| - 1];
      assert p == before + [c];
      WalkAppend(fs, before, [c], [], left);
      WalkWithoutLinks(fs, before, left, if Skipped(c) then ups else if c == ".." then ups + 1 else if ups > 0 then ups - 1 else 0);
      var o := Walk(fs, before, [], left);
      if o.Resolved? {
        WalkOne(fs, c, o.path, left);
        var q := o.path;
        assert Walk(fs, p, [], left) == Walk(fs, [c], q, left);
        if Skipped(c) {
        } else if c == ".." {
          assert q != [] && ups < |q| ==> q[..|q| - 1][..|q| - 1 - ups] == q[..|q| - (ups + 1)];
        } else if ups == 0 {
          assert q[..|q|] == q && (q + [c])[..|q| + 1] == q + [c];
        }
        assert ups > 0 && ups <= |o.path| + 1 ==> (o.path + [c])[..|o.path| + 1 - ups] == o.path[..|o.path| - (ups - 1)];
      }
    }
  }

  /** On a file system without links a path resolves to its lexical normal form, or is refused as an escape
      iff some ".." has no name to cancel. */
  lemma NoLinksIsLexical(fs: map<Path, Node>, p: Path, left: nat)
    requires forall q :: !IsLink(fs, q)
    ensures AnswerOf(Walk(fs, p, [], left)) == if Lexical(p, 0).1 > 0 then Failed(SymlinkEscape) else At(Lexical(p, 0).0)
  {
    WalkWithoutLinks(fs, p, left, 0);
    var o := Walk(fs, p, [], left);
    assert o.Resolved? ==> o.path[..|o.path|] == o.path;
  }

  /** Wherever a path leads, ".." after it leads to the directory above, and is an escape at the root. */
  lemma ParentOfResolved(fs: map<Path, Node>, p: Path, left: nat)
    requires Walk(fs, p, [], left).Resolved?
    ensures var o := Walk(fs, p, [], left);
            Walk(fs, p + [".."], [], left) == if o.path == [] then Escape(o.left) else Resolved(o.path[..|o.path| - 1], o.left)
  {
    var o := Walk(fs, p, [], left);
    WalkAppend(fs, p, [".."], [], left);
    WalkOne(fs, "..", o.path, o.left);
  }

  /** A link stands for its target, taken from the root if it is absolute and else from the directory that
      holds the link, at the cost of one link. */
  lemma LinkStandsForTarget(fs: map<Path, Node>, directory: Path, c: Name, rest: Path, left: nat)
    requires Canonical(fs, directory) && Plain(c) && IsLink(fs, directory + [c])
    ensures var l := fs[directory + [c]];
            Walk(fs, directory + [c] + rest, [], left)
            == if left == 0 then Loop else Walk(fs, (if l.absolute then [] else directory) + l.parts + rest, [], left - 1)
  {
    var l := fs[directory + [c]];
    CanonicalIsFixed(fs, directory, left);
    WalkAppend(fs, directory, [c] + rest, [], left);
    assert directory + [c] + rest == directory + ([c] + rest) && ([c] + rest)[1..] == rest;
    if left > 0 {
      if l.absolute {
        assert [] + l.parts + rest == l.parts + rest;
      } else {
        CanonicalIsFixed(fs, directory, left - 1);
        WalkAppend(fs, directory, l.parts + rest, [], left - 1);
        assert directory + l.parts + rest == directory + (l.parts + rest);
      }
    }
  }

  // ----- the limit of 64 only cuts off -----

  /** With a larger limit resolution does the same, and with a smaller one it does the same unless the
      links it follows exceed the limit; then, and only then, it reports a loop. */
  lemma {:induction false} LimitCutsOff(fs: map<Path, Node>, todo: Path, resolved: Path, small: nat, big: nat)
    requires small <= big
    ensures var o := Walk(fs, todo, resolved, big);
            && (!o.Loop? ==> o.left <= big)
            && Walk(fs, todo, resolved, small)
               == if o.Loop? || big - o.left > small then Loop else o.(left := small - (big - o.left))
    decreases big, |todo|
  {
    if todo != [] {
      var c, rest := todo[0], todo[1..];
      if Skipped(c) {
        LimitCutsOff(fs, rest, resolved, small, big);
      } else if c == ".." {
        if resolved != [] {
          LimitCutsOff(fs, rest, resolved[..|resolved| - 1], small, big);
        }
      } else if IsLink(fs, resolved + [c]) {
        var l := fs[resolved + [c]];
        var start := if l.absolute then [] else resolved;
        if small > 0 {
          LimitCutsOff(fs, l.parts + rest, start, small - 1, big - 1);
        } else if big > 0 {
          LimitCutsOff(fs, l.parts + rest, start, 0, big - 1);
        }
      } else {
        LimitCutsOff(fs, rest, resolved + [c], small, big);
      }
    }
  }

  /** A link whose target leads back to the link itself never resolves, however many links are allowed. */
  lemma {:induction false} CyclesNeverResolve(fs: map<Path, Node>, directory: Path, c: Name, before: Path, after: Path, cost: nat,
                                              rest: Path, left: nat)
    requires Plain(c) && IsLink(fs, directory + [c])
    requires fs[directory + [c]].parts == before + [c] + after
    requires Walk(fs, before, if fs[directory + [c]].absolute then [] else directory, cost) == Resolved(directory, 0)
    ensures Walk(fs, [c] + rest, directory, left) == Loop
    decreases left
  {
    if left > 0 {
      var l := fs[directory + [c]];
      var start := if l.absolute then [] else directory;
      assert ([c] + rest)[1..] == rest;
      assert l.parts + rest == before + ([c] + (after + rest));
      WalkAppend(fs, before, [c] + (after + rest), start, left - 1);
      if cost <= left - 1 {
        LimitCutsOff(fs, before, start, cost, left - 1);
        var o := Walk(fs, before, start, left - 1);
        CyclesNeverResolve(fs, directory, c, before, after, cost, after + rest, o.left);
      } else {
        LimitCutsOff(fs, before, start, left - 1, cost);
      }
    }
  }
}
