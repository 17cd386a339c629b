/** Opening a file by path in ext2: directories, symbolic links, and a name buffer that is
    rewritten in place when a link is followed. */
module PathWalk {
  import opened Options
  import opened BlockMaps

  const MAXNAMLEN: nat := 255
  const PATH_MAX: nat := 1024     // also MAXPATHLEN
  const MAXSYMLINKS: nat := 8
  const ROOTINO: nat := 2
  const SLASH: Byte := 47

  type Name = seq<Byte>

  datatype Node = Dir(entries: map<Name, nat>) | Link(text: Name) | Other

  type Graph = map<nat, Node>

  function NodeAt(fs: Graph, ino: nat): Node { if ino in fs then fs[ino] else Other }

  /** left: how many more links may be followed. */
  datatype Outcome = Opened(ino: nat, left: nat) | NoEntry | NotDirectory | NameTooLong | InvalidParameter | SymlinkLoop

  // ----- the reference: resolve a path one component at a time -----

  function SkipSlashes(p: Name): (r: Name)
    ensures |r| <= |p| && (r != [] ==> r[0] != SLASH) && (p != [] && p[0] == SLASH ==> |r| < |p|)
  {
    if p != [] && p[0] == SLASH then SkipSlashes(p[1..]) else p
  }

  /** The first component, and what follows it: nothing, or a slash and more. */
  function Head(p: Name): (r: Name)
    ensures |r| <= |p| && SLASH !in r
  {
    if p == [] || p[0] == SLASH then [] else [p[0]] + Head(p[1..])
  }

  function Tail(p: Name): (r: Name)
    ensures Head(p) + r == p && (r != [] ==> r[0] == SLASH)
  {
    if p == [] || p[0] == SLASH then p else Tail(p[1..])
  }

  /** The check made on each character of a component: the length before the eighth bit.
      Since the length is compared before it counts the character, max + 1 of them pass. */
  function BadName(c: Name, i: nat, max: nat): (r: Option<Outcome>)
    ensures r.Some? ==> r.value == NameTooLong || r.value == InvalidParameter
    decreases |c| - i
  {
    if i >= |c| then None
    else if i > max then Some(NameTooLong)
    else if c[i] >= 128 then Some(InvalidParameter)
    else BadName(c, i + 1, max)
  }

  /** Which components pass, and which error the others get. */
  lemma BadNameExact(c: Name, max: nat)
    ensures BadName(c, 0, max).None? <==> |c| <= max + 1 && forall j: nat | j < |c| :: c[j] < 128
    ensures BadName(c, 0, max) == Some(NameTooLong) <==> |c| > max + 1 && forall j: nat | j <= max :: c[j] < 128
  {
    BadNameFrom(c, 0, max);
  }

  lemma {:induction false} BadNameFrom(c: Name, i: nat, max: nat)
    requires i <= max + 1
    ensures BadName(c, i, max).None? <==> |c| <= max + 1 && forall j: nat | i <= j < |c| :: c[j] < 128
    ensures BadName(c, i, max) == Some(NameTooLong) <==> |c| > max + 1 && forall j: nat | i <= j <= max :: c[j] < 128
    decreases |c| - i
  {
    if i < |c| && i <= max { BadNameFrom(c, i + 1, max); }
  }

  function StartOf(dir: nat, p: Name): nat { if p != [] && p[0] == SLASH then ROOTINO else dir }

  /** What the component at the front of a path leads to. */
  datatype Next = Stop(why: Outcome) | Go(ino: nat)

  function NextOf(fs: Graph, dir: nat, path: Name): Next {
    match NodeAt(fs, dir)
    case Dir(entries) =>
      var c := Head(SkipSlashes(path));
      if BadName(c, 0, MAXNAMLEN).Some? then Stop(BadName(c, 0, MAXNAMLEN).value)
      else if c !in entries then Stop(NoEntry)
      else Go(entries[c])
    case _ => Stop(NotDirectory)
  }

  function RestOf(path: Name): Name { Tail(SkipSlashes(path)) }

  /** Following a link: its text goes in front of the rest of the path. */
  function Resolve(fs: Graph, dir: nat, path: Name, left: nat): Outcome
    decreases left, |path|, 0
  {
    if path == [] then Opened(dir, left)
    else
      match NextOf(fs, dir, path)
      case Stop(why) => why
      case Go(ino) => Enter(fs, dir, ino, RestOf(path), left)
  }

  function Enter(fs: Graph, dir: nat, ino: nat, rest: Name, left: nat): Outcome
    decreases left, |rest|, 1
  {
    match NodeAt(fs, ino)
    case Link(text) =>
      if |text| + |rest| + 1 >= PATH_MAX - 1 then NameTooLong
      else if left == 0 then SymlinkLoop
      else Resolve(fs, StartOf(dir, text + rest), text + rest, left - 1)
    case _ => Resolve(fs, ino, rest, left)
  }

  // ----- the name buffer -----

  /** From place i on, the buffer holds the string s and a terminating 0. */
  ghost predicate Holds(buf: seq<Byte>, i: nat, s: Name) {
    i + |s| < |buf| && buf[i..i + |s|] == s && buf[i + |s|] == 0 && 0 !in s
  }

  /** The n bytes of was from `from` on have been copied to place `to`; the rest is unchanged. */
  ghost predicate Copied(buf: seq<Byte>, was: seq<Byte>, from: nat, to: nat, n: nat)
    requires from + n <= |was| && to + n <= |was|
  {
    |buf| == |was| && forall k {:trigger buf[k]} | 0 <= k < |buf| ::
      buf[k] == if to <= k < to + n then was[from + (k - to)] else was[k]
  }

  /** ovbcopy: the destination gets the old contents of the source although the two ranges may
      overlap. */
  method Ovbcopy(a: array<Byte>, from: nat, to: nat, n: nat)
    requires from + n <= a.Length && to + n <= a.Length
    modifies a
    ensures Copied(a[..], old(a[..]), from, to, n)
  {
    ghost var was := a[..];
    if from + n <= to || to + n <= from || to == from || from > to {
      var i := 0;
      while i < n
        invariant 0 <= i <= n && Copied(a[..], was, from, to, i)
      {
        ghost var buf := a[..];
        a[to + i] := a[from + i];
        assert a[..] == buf[to + i := buf[from + i]];
        i := i + 1;
      }
    } else {
      var i := n;
      while i > 0
        invariant 0 <= i <= n && Copied(a[..], was, from + i, to + i, n - i)
      {
        i := i - 1;
        ghost var buf := a[..];
        a[to + i] := a[from + i];
        assert a[..] == buf[to + i := buf[from + i]];
      }
    }
  }

  /** Following a link leaves its text and the rest of the path in the buffer. */
  method Expand(a: array<Byte>, cp: nat, text: Name, ghost rest: Name)
    requires a.Length == PATH_MAX + 1 && Holds(a[..], cp, rest) && 0 !in text && |text| + |rest| + 1 < PATH_MAX - 1
    modifies a
    ensures Holds(a[..], 0, text + rest)
  {
    var n := StrLen(a, cp, rest);
    ghost var was := a[..];
    Ovbcopy(a, cp, |text|, n + 1);
    ghost var mid := a[..];
    forall i | 0 <= i < |text| { a[i] := text[i]; }
    assert a[..] == text + mid[|text|..];
    Joined(was, mid, cp, text, rest);
  }

  /** The text in front of the copied rest. */
  lemma Joined(was: seq<Byte>, mid: seq<Byte>, cp: nat, text: Name, rest: Name)
    requires Holds(was, cp, rest) && 0 !in text && |text| + |rest| < |was| && Copied(mid, was, cp, |text|, |rest| + 1)
    ensures Holds(text + mid[|text|..], 0, text + rest)
  {
    var buf := text + mid[|text|..];
    forall k: nat | k < |rest| ensures buf[|text| + k] == rest[k] {
      assert mid[|text| + k] == was[cp + k];
      assert was[cp..cp + |rest|][k] == rest[k];
    }
    assert mid[|text| + |rest|] == was[cp + |rest|];
    assert buf[..|text| + |rest|] == text + rest;
  }

  method StrLen(a: array<Byte>, cp: nat, ghost s: Name) returns (n: nat)
    requires Holds(a[..], cp, s)
    ensures n == |s|
  {
    n := 0;
    while a[cp + n] != 0
      invariant n <= |s|
      decreases |s| - n
    {
      n := n + 1;
    }
  }

  lemma HoldsSuffix(buf: seq<Byte>, i: nat, s: Name, k: nat)
    requires Holds(buf, i, s) && k <= |s|
    ensures Holds(buf, i + k, s[k..]) && buf[i..i + k] == s[..k]
  {
  }

  /** Go past the slashes in front of a component. */
  method SkipSeparators(a: array<Byte>, cp: nat, ghost p: Name) returns (r: nat)
    requires Holds(a[..], cp, p)
    ensures Holds(a[..], r, SkipSlashes(p))
  {
    r := cp;
    ghost var q := p;
    while a[r] == SLASH
      invariant Holds(a[..], r, q) && SkipSlashes(q) == SkipSlashes(p)
      decreases |q|
    {
      HoldsSuffix(a[..], r, q, 1);
      r, q := r + 1, q[1..];
    }
  }

  /** Find the end of the component at the front, checking each character on the way. */
  method ScanComponent(a: array<Byte>, cp: nat, ghost p: Name) returns (bad: Option<Outcome>, end: nat)
    requires Holds(a[..], cp, p)
    ensures bad == BadName(Head(p), 0, MAXNAMLEN)
    ensures bad.None? ==> end == cp + |Head(p)|
  {
    var len := 0;
    ghost var c := Head(p);
    while a[cp + len] != 0 && a[cp + len] != SLASH
      invariant len <= |c| && BadName(c, len, MAXNAMLEN) == BadName(c, 0, MAXNAMLEN)
      decreases |c| - len
    {
      HeadAt(p, len);
      if len > MAXNAMLEN { return Some(NameTooLong), cp; }
      if a[cp + len] >= 128 { return Some(InvalidParameter), cp; }
      len := len + 1;
    }
    HeadAt(p, len);
    return None, cp + len;
  }

  /** The component ends exactly at the first slash or at the end of the path. */
  lemma {:induction false} HeadAt(p: Name, i: nat)
    requires i <= |Head(p)|
    ensures i < |Head(p)| <==> i < |p| && p[i] != SLASH
    ensures i < |Head(p)| ==> Head(p)[i] == p[i]
  {
    if p != [] && p[0] != SLASH && i > 0 { HeadAt(p[1..], i - 1); }
  }

  /** Link texts are strings. */
  ghost predicate LinksOk(fs: Graph) { forall ino | ino in fs :: fs[ino].Link? ==> 0 !in fs[ino].text }

  /** strcpy of the path into the name buffer. */
  method NameBuffer(path: Name) returns (a: array<Byte>)
    requires 0 !in path && |path| <= PATH_MAX
    ensures fresh(a) && a.Length == PATH_MAX + 1 && Holds(a[..], 0, path)
  {
    a := new Byte[PATH_MAX + 1](i => 0);
    forall i | 0 <= i < |path| { a[i] := path[i]; }
    assert a[..|path|] == path;
  }

  lemma HeldComponent(buf: seq<Byte>, i: nat, q: Name)
    requires Holds(buf, i, q)
    ensures buf[i..i + |Head(q)|] == Head(q) && Holds(buf, i + |Head(q)|, Tail(q))
  {
    Parts(Head(q), Tail(q), q);
    HoldsSuffix(buf, i, q, |Head(q)|);
  }

  lemma Parts(c: Name, rest: Name, q: Name)
    requires c + rest == q
    ensures c == q[..|c|] && rest == q[|c|..]
  {
  }

  lemma RestShorter(p: Name)
    requires p != []
    ensures |RestOf(p)| < |p|
  {
    var q := SkipSlashes(p);
    assert |Head(q) + Tail(q)| == |q|;
  }

  /** The component at the front of the path, looked up in directory dir. */
  method NextComponent(fs: Graph, dir: nat, a: array<Byte>, cp: nat, ghost p: Name)
      returns (bad: Option<Outcome>, ino: nat, end: nat)
    requires Holds(a[..], cp, p) && p != []
    ensures bad.Some? ==> NextOf(fs, dir, p) == Stop(bad.value)
    ensures bad.None? ==> NextOf(fs, dir, p) == Go(ino) && Holds(a[..], end, RestOf(p)) && |RestOf(p)| < |p|
  {
    ino, end := 0, 0;
    var node := NodeAt(fs, dir);
    if !node.Dir? { return Some(NotDirectory), ino, end; }
    var start := SkipSeparators(a, cp, p);
    ghost var q := SkipSlashes(p);
    bad, end := ScanComponent(a, start, q);
    if bad.Some? { return; }
    HeldComponent(a[..], start, q);
    RestShorter(p);
    var name := a[start..end];
    if name !in node.entries { return Some(NoEntry), ino, end; }
    ino := node.entries[name];
  }

  lemma ResolveStep(fs: Graph, dir: nat, p: Name, ino: nat, left: nat)
    requires p != [] && NextOf(fs, dir, p) == Go(ino) && !NodeAt(fs, ino).Link?
    ensures Resolve(fs, dir, p, left) == Resolve(fs, ino, RestOf(p), left)
  {
    RestShorter(p);
  }

  lemma ResolveLink(fs: Graph, dir: nat, p: Name, ino: nat, text: Name, left: nat)
    requires p != [] && NextOf(fs, dir, p) == Go(ino) && NodeAt(fs, ino) == Link(text)
    ensures var q := text + RestOf(p);
            Resolve(fs, dir, p, left) ==
              if |text| + |RestOf(p)| + 1 >= PATH_MAX - 1 then NameTooLong
              else if left == 0 then SymlinkLoop
              else Resolve(fs, StartOf(dir, q), q, left - 1)
  {
    RestShorter(p);
  }

  /** ext2fs_open_file agrees with Resolve, for every directory graph and also when links form
      cycles: it ends because each turn uses up a link or characters of the path. */
  method OpenFile(fs: Graph, path: Name) returns (r: Outcome)
    requires 0 !in path && |path| <= PATH_MAX && LinksOk(fs)
    ensures r == if path == [] then NoEntry else Resolve(fs, ROOTINO, path, MAXSYMLINKS)
  {
    if |path| == 0 { return NoEntry; }
    var a := NameBuffer(path);
    var cp: nat, inumber: nat, nlinks: nat := 0, ROOTINO, 0;
    ghost var p, goal := path, Resolve(fs, ROOTINO, path, MAXSYMLINKS);
    while a[cp] != 0
      invariant a.Length == PATH_MAX + 1 && Holds(a[..], cp, p) && nlinks <= MAXSYMLINKS
      invariant Resolve(fs, inumber, p, MAXSYMLINKS - nlinks) == goal
      decreases MAXSYMLINKS - nlinks, |p|
    {
      var bad, ino, end := NextComponent(fs, inumber, a, cp, p);
      if bad.Some? { return bad.value; }
      ghost var rest := RestOf(p);
      var node := NodeAt(fs, ino);
      if node.Link? {
        ResolveLink(fs, inumber, p, ino, node.text, MAXSYMLINKS - nlinks);
        var n := StrLen(a, end, rest);
        if |node.text| + n + 1 >= PATH_MAX - 1 { return NameTooLong; }
        nlinks := nlinks + 1;
        if nlinks > MAXSYMLINKS { return SymlinkLoop; }
        Expand(a, end, node.text, rest);
        p := node.text + rest;
        cp := 0;
        ghost var start := StartOf(inumber, p);
        if a[cp] == SLASH { inumber := ROOTINO; }
        assert inumber == start;
      } else {
        ResolveStep(fs, inumber, p, ino, MAXSYMLINKS - nlinks);
        cp, inumber, p := end, ino, rest;
      }
    }
    return Opened(inumber, MAXSYMLINKS - nlinks);
  }

  // ----- what a path means -----

  /** A component that is looked up: not empty, no slash, not too long, no eighth bit. */
  ghost predicate IsComponent(c: Name) {
    c != [] && SLASH !in c && |c| <= MAXNAMLEN + 1 && forall i: nat | i < |c| :: c[i] < 128
  }

  lemma {:induction false} SplitAt(c: Name, rest: Name)
    requires SLASH !in c && (rest == [] || rest[0] == SLASH)
    ensures Head(c + rest) == c && Tail(c + rest) == rest
  {
    if c == [] {
      assert c + rest == rest;
    } else {
      assert (c + rest)[1..] == c[1..] + rest;
      SplitAt(c[1..], rest);
    }
  }

  /** The component at the front of c + rest is c. */
  lemma FrontIs(fs: Graph, dir: nat, c: Name, rest: Name)
    requires IsComponent(c) && (rest == [] || rest[0] == SLASH) && NodeAt(fs, dir).Dir?
    ensures RestOf(c + rest) == rest
    ensures var entries := NodeAt(fs, dir).entries;
            NextOf(fs, dir, c + rest) == if c in entries then Go(entries[c]) else Stop(NoEntry)
  {
    assert c[0] in c;
    SplitAt(c, rest);
    BadNameExact(c, MAXNAMLEN);
  }

  /** An empty path is where the walk ends; more path needs a directory; slashes in front of a
      component do not matter. */
  lemma WalkEnds(fs: Graph, dir: nat, path: Name, left: nat)
    ensures Resolve(fs, dir, [], left) == Opened(dir, left)
    ensures path != [] && !NodeAt(fs, dir).Dir? ==> Resolve(fs, dir, path, left) == NotDirectory
    ensures path != [] ==> Resolve(fs, dir, [SLASH] + path, left) == Resolve(fs, dir, path, left)
  {
    assert ([SLASH] + path)[1..] == path;
  }

  /** A component that is no link leads to its inode, where the rest of the path goes on. */
  lemma StepInto(fs: Graph, dir: nat, c: Name, rest: Name, left: nat)
    requires IsComponent(c) && (rest == [] || rest[0] == SLASH) && NodeAt(fs, dir).Dir?
    ensures var entries := NodeAt(fs, dir).entries;
            && (c !in entries ==> Resolve(fs, dir, c + rest, left) == NoEntry)
            && (c in entries && !NodeAt(fs, entries[c]).Link? ==>
                  Resolve(fs, dir, c + rest, left) == Resolve(fs, entries[c], rest, left))
  {
    FrontIs(fs, dir, c, rest);
  }

  /** A link is replaced by its text, in front of the rest of the path.  Text that begins with a
      slash is taken from the root, other text from the directory the link is in.  It is an error
      if that does not fit in the buffer, or if too many links have been followed. */
  lemma FollowLink(fs: Graph, dir: nat, c: Name, rest: Name, text: Name, left: nat)
    requires IsComponent(c) && (rest == [] || rest[0] == SLASH) && NodeAt(fs, dir).Dir?
    requires c in NodeAt(fs, dir).entries && NodeAt(fs, NodeAt(fs, dir).entries[c]) == Link(text)
    ensures var whole := Resolve(fs, dir, c + rest, left);
            if |text| + |rest| > 1021 then whole == NameTooLong
            else if left == 0 then whole == SymlinkLoop
            else
              && (text != [] && text[0] != SLASH ==> whole == Resolve(fs, dir, text + rest, left - 1))
              && (text != [] && text[0] == SLASH ==> whole == Resolve(fs, ROOTINO, text + rest, left - 1))
              && (text == [] && rest == [] ==> whole == Opened(dir, left - 1))
              && (text == [] && rest != [] ==> whole == Resolve(fs, ROOTINO, rest, left - 1))
  {
    FrontIs(fs, dir, c, rest);
    ResolveLink(fs, dir, c + rest, NodeAt(fs, dir).entries[c], text, left);
    if text == [] { assert text + rest == rest; }
  }

  /** No entry has an empty name and no link an empty text. */
  ghost predicate WellFormed(fs: Graph) {
    forall ino | ino in fs :: match fs[ino]
                              case Dir(entries) => [] !in entries
                              case Link(text) => text != []
                              case Other => true
  }

  lemma {:induction false} SkipMore(a: Name, s: Name)
    requires s != [] && s[0] == SLASH && SkipSlashes(a) != []
    ensures SkipSlashes(a + s) == SkipSlashes(a) + s
  {
    if a[0] == SLASH {
      assert (a + s)[1..] == a[1..] + s;
      SkipMore(a[1..], s);
    }
  }

  lemma {:induction false} HeadMore(p: Name, s: Name)
    requires s != [] && s[0] == SLASH
    ensures Head(p + s) == Head(p) && Tail(p + s) == Tail(p) + s
  {
    if p != [] && p[0] != SLASH {
      assert (p + s)[1..] == p[1..] + s;
      HeadMore(p[1..], s);
    } else if p == [] {
      assert p + s == s;
    }
  }

  /** The walk of a never meets an empty component, nor a link behind which nothing is left. */
  ghost predicate Clean(fs: Graph, dir: nat, a: Name, left: nat)
    decreases left, |a|
  {
    var p := SkipSlashes(a);
    a != [] && NodeAt(fs, dir).Dir? ==>
      && p != []
      && (Head(p) in NodeAt(fs, dir).entries ==>
            var ino := NodeAt(fs, dir).entries[Head(p)];
            match NodeAt(fs, ino)
            case Link(text) =>
              && text + Tail(p) != []
              && (left > 0 ==> Clean(fs, StartOf(dir, text + Tail(p)), text + Tail(p), left - 1))
            case _ => Clean(fs, ino, Tail(p), left))
  }

  /** At every link the walk of a follows there is room for n more characters. */
  ghost predicate Fits(fs: Graph, dir: nat, a: Name, n: nat, left: nat)
    decreases left, |a|
  {
    var p := SkipSlashes(a);
    p != [] && NodeAt(fs, dir).Dir? && Head(p) in NodeAt(fs, dir).entries ==>
      var ino := NodeAt(fs, dir).entries[Head(p)];
      match NodeAt(fs, ino)
      case Link(text) =>
        && |text| + |Tail(p)| + n + 1 < PATH_MAX - 1
        && (left > 0 ==> Fits(fs, StartOf(dir, text + Tail(p)), text + Tail(p), n, left - 1))
      case _ => Fits(fs, ino, Tail(p), n, left)
  }

  /** In a well-formed graph every walk that arrives is clean. */
  lemma {:induction false} WellFormedClean(fs: Graph, dir: nat, a: Name, left: nat)
    requires WellFormed(fs) && Resolve(fs, dir, a, left).Opened?
    ensures Clean(fs, dir, a, left)
    decreases left, |a|
  {
    if a != [] {
      var p := SkipSlashes(a);
      var ino := NodeAt(fs, dir).entries[Head(p)];
      assert p != [];
      match NodeAt(fs, ino)
      case Link(text) => WellFormedClean(fs, StartOf(dir, text + Tail(p)), text + Tail(p), left - 1);
      case _ => WellFormedClean(fs, ino, Tail(p), left);
    }
  }

  /** A link with an empty text is a reason for the condition: behind it, "/b" is taken from
      the root and not from the directory of the link. */
  lemma EmptyLinkBreaks() returns (fs: Graph, dir: nat, a: Name, s: Name, left: nat)
    ensures s != [] && s[0] == SLASH && Resolve(fs, dir, a, left).Opened? && !Clean(fs, dir, a, left)
    ensures var mid, whole := Resolve(fs, dir, a, left), Resolve(fs, dir, a + s, left);
            whole != NameTooLong && whole != Resolve(fs, mid.ino, s, mid.left)
  {
    var y: Name := [121];
    dir, a, s, left := 5, [120], [SLASH] + y, 1;
    fs := map[ROOTINO := Dir(map[]), 5 := Dir(map[a := 6, y := 7]), 6 := Link([]), 7 := Other];
    EmptyLinkUnclean(fs, dir, a, 6, left);
    EmptyLinkWalk(fs, dir, a, y, 6, left);
  }

  /** In directory dir, x is a link with an empty text; no y in the root. */
  lemma EmptyLinkWalk(fs: Graph, dir: nat, x: Name, y: Name, ino: nat, left: nat)
    requires IsChar(x) && IsChar(y) && left > 0 && NodeAt(fs, dir).Dir?
    requires x in NodeAt(fs, dir).entries && NodeAt(fs, dir).entries[x] == ino && NodeAt(fs, ino) == Link([])
    requires y in NodeAt(fs, dir).entries && NodeAt(fs, NodeAt(fs, dir).entries[y]).Other?
    requires NodeAt(fs, ROOTINO).Dir? && y !in NodeAt(fs, ROOTINO).entries
    ensures Resolve(fs, dir, x, left) == Opened(dir, left - 1)
    ensures Resolve(fs, dir, [SLASH] + y, left - 1) == Opened(NodeAt(fs, dir).entries[y], left - 1)
    ensures Resolve(fs, dir, x + ([SLASH] + y), left) == NoEntry
  {
    SlashResolve(fs, dir, y, left - 1);
    BehindEmpty(fs, dir, x, [], ino, left);
    assert x + [] == x;
    BehindEmpty(fs, dir, x, [SLASH] + y, ino, left);
    SlashResolve(fs, ROOTINO, y, left - 1);
  }

  lemma BehindEmpty(fs: Graph, dir: nat, x: Name, rest: Name, ino: nat, left: nat)
    requires IsChar(x) && left > 0 && NodeAt(fs, dir).Dir? && (rest == [] || rest[0] == SLASH) && |rest| < PATH_MAX - 2
    requires x in NodeAt(fs, dir).entries && NodeAt(fs, dir).entries[x] == ino && NodeAt(fs, ino) == Link([])
    ensures Resolve(fs, dir, x + rest, left) == Resolve(fs, StartOf(dir, rest), rest, left - 1)
  {
    PlainResolve(fs, dir, x, rest, left);
    EnterEmpty(fs, dir, ino, rest, left);
  }

  lemma EnterEmpty(fs: Graph, dir: nat, ino: nat, rest: Name, left: nat)
    requires NodeAt(fs, ino) == Link([]) && |rest| < PATH_MAX - 2 && left > 0
    ensures Enter(fs, dir, ino, rest, left) == Resolve(fs, StartOf(dir, rest), rest, left - 1)
  {
    var text: Name := [];
    assert text + rest == rest;
  }

  lemma SlashResolve(fs: Graph, dir: nat, y: Name, left: nat)
    requires IsChar(y) && NodeAt(fs, dir).Dir?
    ensures var entries := NodeAt(fs, dir).entries;
            Resolve(fs, dir, [SLASH] + y, left) ==
              if y in entries then Enter(fs, dir, entries[y], [], left) else NoEntry
  {
    var s := [SLASH] + y;
    assert s[1..] == y && SkipSlashes(s) == y;
    PlainNext(fs, dir, y, []);
    assert y + [] == y && SkipSlashes(y) == y;
    assert NextOf(fs, dir, s) == NextOf(fs, dir, y) && RestOf(s) == RestOf(y);
  }

  lemma PlainResolve(fs: Graph, dir: nat, x: Name, rest: Name, left: nat)
    requires IsChar(x) && (rest == [] || rest[0] == SLASH) && NodeAt(fs, dir).Dir? && x in NodeAt(fs, dir).entries
    ensures Resolve(fs, dir, x + rest, left) == Enter(fs, dir, NodeAt(fs, dir).entries[x], rest, left)
  {
    PlainNext(fs, dir, x, rest);
  }

  predicate IsChar(x: Name) { |x| == 1 && x[0] != SLASH && x[0] < 128 }

  lemma EmptyLinkUnclean(fs: Graph, dir: nat, x: Name, ino: nat, left: nat)
    requires IsChar(x) && NodeAt(fs, dir).Dir? && x in NodeAt(fs, dir).entries
    requires NodeAt(fs, dir).entries[x] == ino && NodeAt(fs, ino) == Link([])
    ensures !Clean(fs, dir, x, left)
  {
    assert SkipSlashes(x) == x && x[1..] == [];
    assert Head(x) == x && Tail(x) == [];
  }

  /** A component of one plain character. */
  lemma PlainNext(fs: Graph, dir: nat, x: Name, rest: Name)
    requires IsChar(x) && (rest == [] || rest[0] == SLASH) && NodeAt(fs, dir).Dir?
    ensures RestOf(x + rest) == rest
    ensures var entries := NodeAt(fs, dir).entries;
            NextOf(fs, dir, x + rest) == if x in entries then Go(entries[x]) else Stop(NoEntry)
  {
    var p := x + rest;
    assert SkipSlashes(p) == p && p[1..] == rest;
    assert Head(p) == [p[0]] + Head(rest) == x;
    assert Tail(p) == rest;
    assert BadName(x, 1, MAXNAMLEN).None?;
  }

  /** Resolving "a/b" is resolving a and then "/b" from there, with the links that are left,
      exactly if the longer path fits in the buffer at every link. */
  lemma {:induction false} ResolveCompose(fs: Graph, dir: nat, a: Name, s: Name, left: nat)
    requires s != [] && s[0] == SLASH && Resolve(fs, dir, a, left).Opened? && Clean(fs, dir, a, left)
    ensures var mid := Resolve(fs, dir, a, left);
            Resolve(fs, dir, a + s, left) ==
              if Fits(fs, dir, a, |s|, left) then Resolve(fs, mid.ino, s, mid.left) else NameTooLong
    decreases left, |a|
  {
    if a == [] {
      assert a + s == s;
    } else {
      var p := SkipSlashes(a);
      var rest, ino := Tail(p), NodeAt(fs, dir).entries[Head(p)];
      SkipMore(a, s);
      HeadMore(p, s);
      match NodeAt(fs, ino)
      case Link(text) =>
        assert text + (rest + s) == (text + rest) + s;
        ResolveCompose(fs, StartOf(dir, text + rest), text + rest, s, left - 1);
      case _ => ResolveCompose(fs, ino, rest, s, left);
    }
  }
}
