/** The digest of a cell: what it determines about the cell's items. */
module CellDigest {
  import opened Items
  import Sorting
  import Text

  /** The four fields of an item that enter the digest. */
  datatype Fields = Fields(entity: string, group: string, operation: string, payloadHash: string) {
    predicate FreeOf(c: char) {
      c !in entity && c !in group && c !in operation && c !in payloadHash
    }

    /** No NUL, the byte that separates the fields of a line. */
    predicate Clean() {
      FreeOf('\0')
    }

    function Line(): string {
      Text.Join([entity, group, operation, payloadHash], '\0')
    }
  }

  function FieldsOf(item: Item): Fields {
    var e := item.envelope;
    Fields(e.entity, e.cell.group, e.operation, e.payloadHash)
  }

  /** A digest text: either the hash of a preimage, or something not sha256:<hex>. */
  datatype CellHash = Sha256(preimage: string) | Malformed(text: string)

  function Lines(fs: seq<Fields>): (ls: seq<string>)
    ensures |ls| == |fs|
    ensures forall i :: 0 <= i < |fs| ==> ls[i] == fs[i].Line()
  {
    seq(|fs|, i requires 0 <= i < |fs| => fs[i].Line())
  }

  function Preimage(fs: seq<Fields>): string {
    Text.Join(Text.SortStrings(Lines(fs)), '\n')
  }

  function AllFields(items: seq<Item>): (fs: seq<Fields>)
    ensures |fs| == |items|
    ensures forall i :: 0 <= i < |items| ==> fs[i] == FieldsOf(items[i])
  {
    seq(|items|, i requires 0 <= i < |items| => FieldsOf(items[i]))
  }

  function HashCell(items: seq<Item>): CellHash {
    Sha256(Preimage(AllFields(items)))
  }

  /** The fields are clean and their hashes, like all hashes, stay within a line. */
  ghost predicate AllClean(fs: seq<Fields>) {
    forall f :: f in fs ==> f.Clean() && '\n' !in f.payloadHash
  }

  lemma LineInjective(f: Fields, g: Fields)
    requires f.Clean() && g.Clean() && f.Line() == g.Line()
    ensures f == g
  {
    var p := [f.entity, f.group, f.operation, f.payloadHash];
    var q := [g.entity, g.group, g.operation, g.payloadHash];
    Text.JoinInjective(p, q, '\0');
    assert p[0] == q[0] && p[1] == q[1] && p[2] == q[2] && p[3] == q[3];
  }

  lemma {:induction false} EquallyOften<A, B>(xs: seq<A>, x: A, ys: seq<B>, y: B)
    requires |xs| == |ys|
    requires forall i :: 0 <= i < |xs| ==> (xs[i] == x <==> ys[i] == y)
    ensures multiset(xs)[x] == multiset(ys)[y]
  {
    if xs != [] {
      assert xs == [xs[0]] + xs[1..] && ys == [ys[0]] + ys[1..];
      EquallyOften(xs[1..], x, ys[1..], y);
    }
  }

  /** A line occurs as often as the fields it encodes. */
  lemma LineCount(fs: seq<Fields>, f: Fields)
    requires AllClean(fs) && f.Clean()
    ensures multiset(Lines(fs))[f.Line()] == multiset(fs)[f]
  {
    forall i | 0 <= i < |fs| && fs[i].Line() == f.Line() ensures fs[i] == f {
      assert fs[i] in fs;
      LineInjective(fs[i], f);
    }
    EquallyOften(fs, f, Lines(fs), f.Line());
  }

  lemma LinesDetermineFields(fs: seq<Fields>, gs: seq<Fields>)
    requires AllClean(fs) && AllClean(gs)
    requires multiset(Lines(fs)) == multiset(Lines(gs))
    ensures multiset(fs) == multiset(gs)
  {
    forall f ensures multiset(fs)[f] == multiset(gs)[f] {
      if f in fs || f in gs {
        LineCount(fs, f);
        LineCount(gs, f);
      }
    }
  }

  lemma LinesOfSameFields(fs: seq<Fields>, gs: seq<Fields>)
    requires AllClean(fs) && AllClean(gs)
    requires multiset(fs) == multiset(gs)
    ensures multiset(Lines(fs)) == multiset(Lines(gs))
  {
    var ls, ms := Lines(fs), Lines(gs);
    forall l ensures multiset(ls)[l] == multiset(ms)[l] {
      if l in ls || l in ms {
        var f :| (f in fs || f in gs) && f.Line() == l;
        assert f in multiset(fs) || f in multiset(gs);
        assert f in fs && f in gs;
        LineCount(fs, f);
        LineCount(gs, f);
      }
    }
  }

  // ---- Lines are told apart even if identifiers contain newlines ----

  ghost predicate IsLine(l: string) {
    exists f: Fields :: f.Clean() && '\n' !in f.payloadHash && l == f.Line()
  }

  lemma LineParts(f: Fields, tail: string)
    ensures f.Line() + tail
         == f.entity + ['\0'] + (f.group + ['\0'] + (f.operation + ['\0'] + (f.payloadHash + tail)))
  {
    Text.JoinFour(f.entity, f.group, f.operation, f.payloadHash, '\0');
  }

  /** A line, and what follows it, can be read off the text they begin. */
  lemma LineEnds(f: Fields, s: string, g: Fields, t: string)
    requires f.Clean() && '\n' !in f.payloadHash && g.Clean() && '\n' !in g.payloadHash
    requires f.Line() + s == g.Line() + t
    requires (s == [] || s[0] == '\n') && (t == [] || t[0] == '\n')
    ensures f == g && s == t
  {
    LineParts(f, s);
    LineParts(g, t);
    var s2, t2 := f.payloadHash + s, g.payloadHash + t;
    var s1, t1 := f.operation + ['\0'] + s2, g.operation + ['\0'] + t2;
    Text.SplitOnce(f.entity, f.group + ['\0'] + s1, g.entity, g.group + ['\0'] + t1, '\0');
    Text.SplitOnce(f.group, s1, g.group, t1, '\0');
    Text.SplitOnce(f.operation, s2, g.operation, t2, '\0');
    HashEnds(f.payloadHash, s, g.payloadHash, t);
  }

  lemma HashEnds(h: string, s: string, k: string, t: string)
    requires '\n' !in h && '\n' !in k && h + s == k + t
    requires (s == [] || s[0] == '\n') && (t == [] || t[0] == '\n')
    ensures h == k && s == t
  {
    var u := h + s;
    assert forall i :: 0 <= i < |h| ==> u[i] == h[i];
    assert forall i :: 0 <= i < |k| ==> u[i] == k[i];
    assert s != [] ==> u[|h|] == '\n';
    assert t != [] ==> u[|k|] == '\n';
    assert |h| == |k|;
    assert h == u[..|h|] && k == u[..|k|] && s == u[|h|..] && t == u[|k|..];
  }

  /** What comes after the first line of a joined text. */
  function AfterFirst(ls: seq<string>): string
    requires ls != []
  {
    if |ls| == 1 then "" else ['\n'] + Text.Join(ls[1..], '\n')
  }

  lemma FirstLine(l: string, s: string, m: string, t: string)
    requires IsLine(l) && IsLine(m) && l + s == m + t
    requires (s == [] || s[0] == '\n') && (t == [] || t[0] == '\n')
    ensures l == m && s == t
  {
    var f: Fields :| f.Clean() && '\n' !in f.payloadHash && l == f.Line();
    var g: Fields :| g.Clean() && '\n' !in g.payloadHash && m == g.Line();
    LineEnds(f, s, g, t);
  }

  lemma {:induction false} LinesInjective(ls: seq<string>, ms: seq<string>)
    requires ls != [] && ms != []
    requires (forall l :: l in ls ==> IsLine(l)) && (forall m :: m in ms ==> IsLine(m))
    requires Text.Join(ls, '\n') == Text.Join(ms, '\n')
    ensures ls == ms
    decreases ls
  {
    hide IsLine;
    assert IsLine(ls[0]) && IsLine(ms[0]);
    assert Text.Join(ls, '\n') == ls[0] + AfterFirst(ls);
    assert Text.Join(ms, '\n') == ms[0] + AfterFirst(ms);
    FirstLine(ls[0], AfterFirst(ls), ms[0], AfterFirst(ms));
    if |ls| > 1 {
      assert AfterFirst(ls)[1..] == Text.Join(ls[1..], '\n') && AfterFirst(ms)[1..] == Text.Join(ms[1..], '\n');
      LinesInjective(ls[1..], ms[1..]);
    }
    assert ls == [ls[0]] + ls[1..] && ms == [ms[0]] + ms[1..];
  }

  lemma SortedLinesAreLines(fs: seq<Fields>)
    requires AllClean(fs)
    ensures forall l :: l in Text.SortStrings(Lines(fs)) ==> IsLine(l)
  {
    forall l | l in Text.SortStrings(Lines(fs)) ensures IsLine(l) {
      assert l in multiset(Lines(fs));
      assert l in Lines(fs);
      var i :| 0 <= i < |fs| && l == fs[i].Line();
      assert fs[i] in fs;
    }
  }

  /** Two non-empty cells have one digest exactly when they hold the same fields. */
  lemma PreimageExact(fs: seq<Fields>, gs: seq<Fields>)
    requires fs != [] && gs != []
    requires AllClean(fs) && AllClean(gs)
    ensures Preimage(fs) == Preimage(gs) <==> multiset(fs) == multiset(gs)
  {
    var ls, ms := Lines(fs), Lines(gs);
    Text.LessOrders(ls);
    Text.LessOrders(ms);
    Sorting.SortSorts(Text.Less, ls);
    Sorting.SortSorts(Text.Less, ms);
    if Preimage(fs) == Preimage(gs) {
      SortedLinesAreLines(fs);
      SortedLinesAreLines(gs);
      LinesInjective(Text.SortStrings(ls), Text.SortStrings(ms));
      LinesDetermineFields(fs, gs);
    }
    if multiset(fs) == multiset(gs) {
      LinesOfSameFields(fs, gs);
      Text.SortedUnique(Text.SortStrings(ls), Text.SortStrings(ms));
    }
  }

  // ---- With a NUL a line can be read in two ways ----

  lemma CutAtNul(s: string) returns (a: string, b: string)
    requires '\0' in s
    ensures s == a + ['\0'] + b && |a| < |s| && |b| < |s|
  {
    var i :| 0 <= i < |s| && s[i] == '\0';
    a, b := s[..i], s[i + 1..];
  }

  lemma LineIs(f: Fields)
    ensures f.Line() == f.entity + ['\0'] + (f.group + ['\0'] + (f.operation + ['\0'] + f.payloadHash))
  {
    Text.JoinFour(f.entity, f.group, f.operation, f.payloadHash, '\0');
  }

  lemma Regroup(a: string, b: string, c: string, d: string)
    ensures a + ['\0'] + (b + ['\0'] + (c + ['\0'] + d)) == (a + ['\0'] + b) + ['\0'] + (c + ['\0'] + d)
    ensures a + ['\0'] + (b + ['\0'] + (c + ['\0'] + d)) == a + ['\0'] + ((b + ['\0'] + c) + ['\0'] + d)
  {
  }

  /** The same text as the line of f, cut at other NULs. */
  lemma OtherReading(f: Fields) returns (g: Fields)
    requires '\0' !in f.payloadHash && !f.FreeOf('\0')
    ensures g != f && g.Line() == f.Line() && g.payloadHash == f.payloadHash
  {
    hide Fields.Line;
    var h := f.payloadHash;
    if '\0' in f.entity {
      var a, b := CutAtNul(f.entity);
      g := Fields(a, b + ['\0'] + f.group, f.operation, h);
      Regroup(a, b, f.group, f.operation + ['\0'] + h);
      assert |g.entity| != |f.entity|;
    } else if '\0' in f.group {
      var a, b := CutAtNul(f.group);
      g := Fields(f.entity + ['\0'] + a, b, f.operation, h);
      Regroup(f.entity, a, b, f.operation + ['\0'] + h);
      assert |g.entity| != |f.entity|;
    } else {
      var a, b := CutAtNul(f.operation);
      g := Fields(f.entity, f.group + ['\0'] + a, b, h);
      Regroup(f.group, a, b, h);
      assert |g.group| != |f.group|;
    }
    LineIs(f);
    LineIs(g);
  }

  /** A line stands for one list of fields exactly when none of them has a NUL. */
  lemma LineExact(f: Fields)
    requires '\0' !in f.payloadHash
    ensures (forall g: Fields :: '\0' !in g.payloadHash && g.Line() == f.Line() ==> g == f) <==> f.FreeOf('\0')
  {
    if f.FreeOf('\0') {
      forall g: Fields | '\0' !in g.payloadHash && g.Line() == f.Line() ensures g == f {
        NoOtherReading(f, g);
      }
    } else {
      var g := OtherReading(f);
    }
  }

  /** A line with exactly three NULs has no other reading. */
  lemma NoOtherReading(f: Fields, g: Fields)
    requires f.Clean() && '\0' !in g.payloadHash && g.Line() == f.Line()
    ensures g == f
  {
    if g.Clean() {
      LineInjective(f, g);
    } else {
      NulCount(f);
      NulCount(g);
      assert false;
    }
  }

  function Nuls(s: string): nat {
    multiset(s)['\0']
  }

  lemma NulCount(f: Fields)
    ensures Nuls(f.Line()) == Nuls(f.entity) + Nuls(f.group) + Nuls(f.operation) + Nuls(f.payloadHash) + 3
    ensures f.FreeOf('\0') <==> Nuls(f.Line()) == 3
  {
    Text.JoinFour(f.entity, f.group, f.operation, f.payloadHash, '\0');
    assert f.FreeOf('\0') <==> Nuls(f.entity) == 0 && Nuls(f.group) == 0 && Nuls(f.operation) == 0
                               && Nuls(f.payloadHash) == 0 by {
      assert '\0' in f.entity <==> '\0' in multiset(f.entity);
      assert '\0' in f.group <==> '\0' in multiset(f.group);
      assert '\0' in f.operation <==> '\0' in multiset(f.operation);
      assert '\0' in f.payloadHash <==> '\0' in multiset(f.payloadHash);
    }
  }
}
