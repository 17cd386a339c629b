/** bootstrap.conf: what mkminix writes, and the lines and fields a reader of it finds. */
module BootConf {
  import opened Options
  import opened BlockMaps
  import opened PathWalk

  const BLANK: Byte := 32
  const NEWLINE: Byte := 10
  const DEFAULT_PAGER: Name := [100, 101, 102, 97, 117, 108, 116, 95, 112, 97, 103, 101, 114]

  /** A file to put into /mach_servers, with the arguments for its line in bootstrap.conf. */
  datatype Spec = Spec(name: Name, args: seq<Byte>, data: seq<Byte>)

  // ----- writing -----

  /** One line of bootstrap.conf. */
  function Line(f: Spec): seq<Byte> {
    f.name + [BLANK] + f.name + (if f.args == [] then [] else [BLANK] + f.args) + [NEWLINE]
  }

  function Lines(files: seq<Spec>): seq<Byte> {
    if files == [] then [] else Lines(files[..|files| - 1]) + Line(files[|files| - 1])
  }

  function Conf(files: seq<Spec>): seq<Byte> {
    if files == [] then DEFAULT_PAGER + [BLANK] + DEFAULT_PAGER + [NEWLINE] else Lines(files)
  }

  // ----- reading -----

  /** What stands before the first c, and what stands behind it. */
  function Before(s: seq<Byte>, c: Byte): (r: seq<Byte>)
    ensures |r| <= |s| && c !in r
  {
    if s == [] || s[0] == c then [] else [s[0]] + Before(s[1..], c)
  }

  function Behind(s: seq<Byte>, c: Byte): (r: seq<Byte>)
    ensures s != [] ==> |r| < |s|
    ensures c in s ==> s == Before(s, c) + [c] + r
  {
    if s == [] then [] else if s[0] == c then s[1..] else Behind(s[1..], c)
  }

  /** The lines of a text, without their newlines. */
  function SplitLines(s: seq<Byte>): seq<seq<Byte>>
    decreases |s|
  {
    if s == [] then [] else [Before(s, NEWLINE)] + SplitLines(Behind(s, NEWLINE))
  }

  /** The fields of a line: the name for the symbol table, the path, and the arguments. */
  datatype Server = Server(symtab: Name, path: Name, args: Option<seq<Byte>>)

  function ParseLine(l: seq<Byte>): Option<Server> {
    if BLANK !in l then None
    else
      var rest := Behind(l, BLANK);
      if BLANK in rest then Some(Server(Before(l, BLANK), Before(rest, BLANK), Some(Behind(rest, BLANK))))
      else Some(Server(Before(l, BLANK), rest, None))
  }

  /** The line of this file, and no other, is there for it. */
  ghost predicate Describes(l: seq<Byte>, name: Name, args: seq<Byte>) {
    ParseLine(l) == Some(Server(name, name, if args == [] then None else Some(args)))
  }

  /** The text has one line for each file, in order, with its name twice and its arguments. */
  ghost predicate Configures(text: seq<Byte>, files: seq<Spec>) { Lists(SplitLines(text), files) }

  ghost predicate Lists(lines: seq<seq<Byte>>, files: seq<Spec>) {
    |lines| == |files| && forall j: nat | j < |files| :: Describes(lines[j], files[j].name, files[j].args)
  }

  /** A name without blanks and newlines, and arguments without newlines. */
  predicate IsTame(f: Spec) { BLANK !in f.name && NEWLINE !in f.name && NEWLINE !in f.args }

  // ----- what was written is read -----

  lemma {:induction false} BeforeIs(a: seq<Byte>, c: Byte, b: seq<Byte>)
    requires c !in a
    ensures Before(a + [c] + b, c) == a && Behind(a + [c] + b, c) == b
  {
    if a == [] {
      assert a + [c] + b == [c] + b;
    } else {
      assert (a + [c] + b)[1..] == a[1..] + [c] + b;
      BeforeIs(a[1..], c, b);
    }
  }

  lemma {:induction false} NoneBehind(s: seq<Byte>, c: Byte)
    requires c !in s
    ensures Before(s, c) == s && Behind(s, c) == []
  {
    if s != [] { NoneBehind(s[1..], c); }
  }

  /** The line of a file without its newline. */
  function Body(f: Spec): seq<Byte> { f.name + [BLANK] + f.name + (if f.args == [] then [] else [BLANK] + f.args) }

  /** Its fields are right exactly if the name has no blank. */
  lemma BodyParses(f: Spec)
    ensures Describes(Body(f), f.name, f.args) <==> BLANK !in f.name
  {
    var l, n := Body(f), f.name;
    var more := if f.args == [] then [] else [BLANK] + f.args;
    assert l == n + [BLANK] + (n + more);
    if BLANK !in n {
      BeforeIs(n, BLANK, n + more);
      if f.args == [] {
        assert n + more == n;
      } else {
        assert n + more == n + [BLANK] + f.args;
        BeforeIs(n, BLANK, f.args);
      }
    } else if ParseLine(l).Some? {
      assert BLANK !in Before(l, BLANK);
    }
  }

  lemma SplitFirst(x: seq<Byte>, y: seq<Byte>)
    requires NEWLINE !in x
    ensures SplitLines(x + [NEWLINE] + y) == [x] + SplitLines(y)
  {
    BeforeIs(x, NEWLINE, y);
  }

  lemma Regroup<T>(x: seq<T>, y: seq<T>, z: seq<T>)
    ensures x + y + z == x + (y + z)
  {
  }

  lemma LastOf(a: seq<Byte>, x: seq<Byte>, y: seq<Byte>)
    requires a == x + y && y != []
    ensures a != [] && y[|y| - 1] == a[|a| - 1]
  {
  }

  /** Text that ends with a newline is split by itself. */
  lemma {:induction false} SplitBoth(a: seq<Byte>, b: seq<Byte>)
    requires a == [] || a[|a| - 1] == NEWLINE
    ensures SplitLines(a + b) == SplitLines(a) + SplitLines(b)
    decreases |a|
  {
    if a == [] {
      assert a + b == b;
    } else {
      var x, y := Before(a, NEWLINE), Behind(a, NEWLINE);
      assert a[|a| - 1] in a;
      if y != [] { LastOf(a, x + [NEWLINE], y); }
      SplitBoth(y, b);
      Regroup(x + [NEWLINE], y, b);
      SplitFirst(x, y);
      SplitFirst(x, y + b);
      Regroup([x], SplitLines(y), SplitLines(b));
    }
  }

  /** A line is one line exactly if it has no newline inside. */
  lemma OneLine(b: seq<Byte>)
    ensures |SplitLines(b + [NEWLINE])| >= 1
    ensures |SplitLines(b + [NEWLINE])| == 1 <==> NEWLINE !in b
    ensures NEWLINE !in b ==> SplitLines(b + [NEWLINE]) == [b]
  {
    var s := b + [NEWLINE];
    if NEWLINE !in b {
      SplitFirst(b, []);
      assert s == b + [NEWLINE] + [];
    } else {
      var x, y := Before(b, NEWLINE), Behind(b, NEWLINE);
      assert s == x + [NEWLINE] + (y + [NEWLINE]);
      SplitFirst(x, y + [NEWLINE]);
    }
  }

  lemma LineSplits(f: Spec)
    ensures Line(f) == Body(f) + [NEWLINE]
    ensures |SplitLines(Line(f))| >= 1
    ensures |SplitLines(Line(f))| == 1 && Describes(SplitLines(Line(f))[0], f.name, f.args) <==> IsTame(f)
  {
    OneLine(Body(f));
    BodyParses(f);
    assert NEWLINE in Body(f) <==> NEWLINE in f.name || NEWLINE in f.args;
  }

  /** The lines of all files but the last, and of the last. */
  lemma ListsBoth(a: seq<seq<Byte>>, b: seq<seq<Byte>>, init: seq<Spec>, f: Spec)
    requires |a| >= |init| && |b| >= 1
    ensures Lists(a + b, init + [f]) <==> Lists(a, init) && |b| == 1 && Describes(b[0], f.name, f.args)
  {
    var files := init + [f];
    if |a| == |init| && |b| == 1 {
      forall j: nat | j < |init| ensures (a + b)[j] == a[j] && files[j] == init[j] {}
      assert (a + b)[|init|] == b[0] && files[|init|] == f;
      if Lists(a + b, files) {
        forall j: nat | j < |init| ensures Describes(a[j], init[j].name, init[j].args) {
          assert Describes((a + b)[j], files[j].name, files[j].args);
        }
        assert Describes((a + b)[|init|], files[|init|].name, files[|init|].args);
      }
    }
  }

  ghost predicate AllTame(files: seq<Spec>) { forall k: nat | k < |files| :: IsTame(files[k]) }

  lemma AllTameBoth(init: seq<Spec>, f: Spec)
    ensures AllTame(init + [f]) <==> AllTame(init) && IsTame(f)
  {
    var files := init + [f];
    assert files[|init|] == f;
    forall k: nat | k < |init| ensures files[k] == init[k] {}
    if AllTame(files) { forall k: nat | k < |init| ensures IsTame(init[k]) { assert IsTame(files[k]); } }
  }

  lemma LinesEnd(files: seq<Spec>)
    ensures files != [] ==> Lines(files) != [] && Lines(files)[|Lines(files)| - 1] == NEWLINE
  {
  }

  lemma {:induction false} LinesSplit(files: seq<Spec>)
    ensures |SplitLines(Lines(files))| >= |files|
    ensures Configures(Lines(files), files) <==> AllTame(files)
  {
    if files != [] {
      var init, f := files[..|files| - 1], files[|files| - 1];
      LinesSplit(init);
      LinesMore(init, f);
      assert files == init + [f];
    }
  }

  lemma LinesMore(init: seq<Spec>, f: Spec)
    requires |SplitLines(Lines(init))| >= |init| && (Configures(Lines(init), init) <==> AllTame(init))
    ensures |SplitLines(Lines(init) + Line(f))| > |init|
    ensures Configures(Lines(init) + Line(f), init + [f]) <==> AllTame(init + [f])
  {
    LinesEnd(init);
    LineSplits(f);
    SplitBoth(Lines(init), Line(f));
    ListsBoth(SplitLines(Lines(init)), SplitLines(Line(f)), init, f);
    AllTameBoth(init, f);
  }

  /** bootstrap.conf has a line for every file, with its name and exactly its arguments, if and
      only if no name has a blank or a newline and no arguments have a newline.  Without files
      it has the one line for the default pager. */
  lemma ConfExact(files: seq<Spec>)
    ensures files != [] ==> (Configures(Conf(files), files) <==> AllTame(files))
    ensures files == [] ==> Configures(Conf(files), [Spec(DEFAULT_PAGER, [], [])])
  {
    if files != [] {
      LinesSplit(files);
    } else {
      var f := Spec(DEFAULT_PAGER, [], []);
      assert Conf(files) == Line(f);
      LineSplits(f);
      PagerTame();
    }
  }

  lemma PagerTame()
    ensures BLANK !in DEFAULT_PAGER && NEWLINE !in DEFAULT_PAGER
  {
  }
}
