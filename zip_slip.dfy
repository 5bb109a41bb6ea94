/**
 * S3Adapter.newFile: the zip-slip guard of the package download.  A zip
 * entry is unpacked at File(destinationDir, entryName) only if the
 * canonical path of that file starts with the canonical path of the
 * destination directory followed by a separator.  Canonical paths are
 * modelled on Unix paths with '/' as separator: empty and "." segments
 * vanish and ".." removes the previous segment (at the root it stays at
 * the root).
 */
module ZipSlip {
  import opened Common

  predicate NoSlash(s: string) {
    forall j :: 0 <= j < |s| ==> s[j] != '/'
  }

  /** A segment that survives canonicalisation. */
  predicate Plain(seg: string) {
    seg != "" && seg != "." && seg != ".." && NoSlash(seg)
  }

  predicate AllPlain(segs: seq<string>) {
    forall i :: 0 <= i < |segs| ==> Plain(segs[i])
  }

  /** One path segment applied to the directory reached so far. */
  function Step(stack: seq<string>, seg: string): (r: seq<string>)
    ensures AllPlain(stack) && NoSlash(seg) ==> AllPlain(r)
  {
    if seg == "" || seg == "." then stack
    else if seg == ".." then (if stack == [] then [] else stack[..|stack| - 1])
    else stack + [seg]
  }

  /** The segments applied left to right. */
  function Resolve(stack: seq<string>, segs: seq<string>): seq<string>
    decreases |segs|
  {
    if segs == [] then stack else Resolve(Step(stack, segs[0]), segs[1..])
  }

  lemma {:induction false} ResolvePlain(stack: seq<string>, segs: seq<string>)
    requires AllPlain(stack) && forall i :: 0 <= i < |segs| ==> NoSlash(segs[i])
    ensures AllPlain(Resolve(stack, segs))
    decreases |segs|
  {
    if segs != [] {
      ResolvePlain(Step(stack, segs[0]), segs[1..]);
    }
  }

  lemma {:induction false} ResolveAppend(stack: seq<string>, xs: seq<string>, ys: seq<string>)
    ensures Resolve(stack, xs + ys) == Resolve(Resolve(stack, xs), ys)
    decreases |xs|
  {
    if xs != [] {
      assert (xs + ys)[1..] == xs[1..] + ys;
      ResolveAppend(Step(stack, xs[0]), xs[1..], ys);
    } else {
      assert xs + ys == ys;
    }
  }

  /** The segments of a path. */
  function Segments(path: string): seq<string> {
    SplitFields(path, '/')
  }

  /** Joining with a separator concatenates the segment lists. */
  lemma {:induction false} SegmentsOfJoin(x: string, y: string)
    ensures Segments(x + "/" + y) == Segments(x) + Segments(y)
    decreases |x|
  {
    if |x| > 0 {
      SegmentsOfJoin(x[1..], y);
      assert (x + "/" + y)[1..] == x[1..] + "/" + y;
    } else {
      assert x + "/" + y == "/" + y;
      assert ("/" + y)[1..] == y;
    }
  }

  /** The canonical directory chain of a path. */
  function Canonical(path: string): (c: seq<string>)
    ensures AllPlain(c)
  {
    ResolvePlain([], Segments(path));
    Resolve([], Segments(path))
  }

  /** Renders a directory chain as "/s1/s2/...". */
  function Render(segs: seq<string>): string {
    if segs == [] then "" else "/" + segs[0] + Render(segs[1..])
  }

  /** File.getCanonicalPath: the root is "/". */
  function CanonicalPath(path: string): string {
    var c := Canonical(path);
    if c == [] then "/" else Render(c)
  }

  /** The entry's file: File(destinationDir, entryName). */
  function EntryPath(dest: string, name: string): string {
    dest + "/" + name
  }

  /** The guard: the entry's canonical path starts with the destination's canonical path and a separator. */
  predicate Inside(dest: string, name: string) {
    StartsWith(CanonicalPath(EntryPath(dest, name)), CanonicalPath(dest) + "/")
  }

  /** newFile: the entry's file, or the IOException for an entry outside the target directory. */
  function NewFile(dest: string, name: string): (r: Result<string, string>)
    ensures r.Ok? ==> r.value == EntryPath(dest, name)
    ensures r.Err? ==> r.error == "Entry is outside of the target dir: " + name
  {
    if Inside(dest, name) then Ok(EntryPath(dest, name))
    else Err("Entry is outside of the target dir: " + name)
  }

  // ---------------------------------------------------------------------
  // What the guard means
  // ---------------------------------------------------------------------

  lemma {:induction false} RenderAppend(a: seq<string>, b: seq<string>)
    ensures Render(a + b) == Render(a) + Render(b)
  {
    if a != [] {
      assert (a + b)[1..] == a[1..] + b;
      RenderAppend(a[1..], b);
    } else {
      assert a + b == b;
    }
  }

  lemma RenderStartsWithSlash(a: seq<string>)
    ensures Render(a) == [] || Render(a)[0] == '/'
  {
  }

  /** Two rendered chains that agree up to a separator agree on their first segment. */
  lemma SameFirstSegment(x: string, restX: string, y: string, restY: string)
    requires NoSlash(x) && NoSlash(y)
    requires restX == [] || restX[0] == '/'
    requires |restY| > 0 && restY[0] == '/'
    requires y + restY <= x + restX
    ensures x == y && restY <= restX
  {
    assert x == (x + restX)[..|x|];
    assert y == (y + restY)[..|y|];
    assert restY == (y + restY)[|y|..];
    assert restX == (x + restX)[|x|..];
  }

  lemma PrefixTail(c: char, p: string, q: string)
    requires [c] + p <= [c] + q
    ensures p <= q
  {
    assert p == ([c] + p)[1..];
    assert q == ([c] + q)[1..];
  }

  /** A rendered chain followed by a separator is a prefix of another only if the chain is a proper prefix. */
  lemma {:induction false} RenderPrefix(a: seq<string>, b: seq<string>)
    requires AllPlain(a) && AllPlain(b)
    requires Render(b) + "/" <= Render(a)
    ensures |b| < |a| && a[..|b|] == b
  {
    assert a != [];
    RenderStartsWithSlash(a[1..]);
    if b == [] {
      assert a[..0] == b;
    } else {
      RenderStartsWithSlash(b[1..]);
      assert Render(b) + "/" == "/" + (b[0] + (Render(b[1..]) + "/"));
      assert Render(a) == "/" + (a[0] + Render(a[1..]));
      PrefixTail('/', b[0] + (Render(b[1..]) + "/"), a[0] + Render(a[1..]));
      SameFirstSegment(a[0], Render(a[1..]), b[0], Render(b[1..]) + "/");
      RenderPrefix(a[1..], b[1..]);
      assert a[..|b|] == [a[0]] + a[1..][..|b| - 1];
      assert b == [b[0]] + b[1..];
    }
  }

  /** A chain of plain segments never renders with "//" at its start. */
  lemma RenderNoDoubleSlash(a: seq<string>)
    requires AllPlain(a)
    ensures !("//" <= Render(a))
  {
    if a != [] {
      assert Render(a)[1] == a[0][0];
    }
  }

  /** The entry's chain is the destination's chain with the entry name's segments applied. */
  lemma EntryChain(dest: string, name: string)
    ensures Canonical(EntryPath(dest, name)) == Resolve(Canonical(dest), Segments(name))
  {
    SegmentsOfJoin(dest, name);
    ResolveAppend([], Segments(dest), Segments(name));
  }

  /** Only entries strictly below the destination pass the guard. */
  lemma InsideSound(dest: string, name: string)
    requires Inside(dest, name)
    ensures var d := Canonical(dest);
            var e := Canonical(EntryPath(dest, name));
            d != [] && |d| < |e| && e[..|d|] == d
  {
    var d := Canonical(dest);
    var e := Canonical(EntryPath(dest, name));
    if d == [] {
      RenderNoDoubleSlash(e);
      assert false;
    }
    if e == [] {
      assert false;
    }
    RenderPrefix(e, d);
  }

  /** Every entry strictly below a destination other than the root passes the guard. */
  lemma InsideComplete(dest: string, name: string)
    requires var d := Canonical(dest);
             var e := Canonical(EntryPath(dest, name));
             d != [] && |d| < |e| && e[..|d|] == d
    ensures Inside(dest, name)
  {
    var d := Canonical(dest);
    var e := Canonical(EntryPath(dest, name));
    var rest := e[|d|..];
    assert e == d + rest;
    RenderBelow(d, rest);
  }

  /** A path with further segments renders as the path, a slash, and more. */
  lemma RenderBelow(d: seq<string>, rest: seq<string>)
    requires rest != []
    ensures Render(d) + "/" <= Render(d + rest)
  {
    RenderAppend(d, rest);
    var a, r := Render(d), Render(rest);
    assert r[0] == '/';
    var whole := a + r;
    assert forall i :: 0 <= i < |a| ==> whole[i] == a[i];
    assert whole[|a|] == '/';
  }

  /**
   * The guard accepts exactly the entries whose canonical location lies
   * strictly below the destination directory (the destination itself not
   * included).  With "/" as destination no entry passes, since nothing
   * starts with "//".
   */
  lemma InsideIff(dest: string, name: string)
    ensures var d := Canonical(dest);
            var e := Canonical(EntryPath(dest, name));
            Inside(dest, name) <==> d != [] && |d| < |e| && e[..|d|] == d
  {
    var d := Canonical(dest);
    var e := Canonical(EntryPath(dest, name));
    if Inside(dest, name) {
      InsideSound(dest, name);
    }
    if d != [] && |d| < |e| && e[..|d|] == d {
      InsideComplete(dest, name);
    }
  }

  /** A plain entry name lands directly below the destination and is accepted. */
  lemma PlainEntryAccepted(dest: string, name: string)
    requires Canonical(dest) != [] && Plain(name)
    ensures NewFile(dest, name) == Ok(EntryPath(dest, name))
  {
    EntryChain(dest, name);
    SplitFieldsNone(name, '/');
    var d := Canonical(dest);
    assert Resolve(d, [name]) == d + [name];
    assert (d + [name])[..|d|] == d;
    InsideIff(dest, name);
  }

  /** An entry resolving to the destination itself ("" or ".") is rejected. */
  lemma DestinationItselfRejected(dest: string, name: string)
    requires name == "" || name == "."
    ensures NewFile(dest, name).Err?
  {
    EntryChain(dest, name);
    SplitFieldsNone(name, '/');
    InsideIff(dest, name);
  }

  /** The segments of "../s". */
  lemma ParentEntryChain(dest: string, s: string)
    requires Plain(s)
    ensures var d := Canonical(dest);
            Canonical(EntryPath(dest, "../" + s)) == (if d == [] then [] else d[..|d| - 1]) + [s]
  {
    var name := "../" + s;
    var d := Canonical(dest);
    assert name == ".." + "/" + s;
    SegmentsOfJoin("..", s);
    SplitFieldsNone("..", '/');
    SplitFieldsNone(s, '/');
    assert Segments(name) == ["..", s];
    EntryChain(dest, name);
    var up := Step(d, "..");
    assert Resolve(d, ["..", s]) == Resolve(up, [s]);
    assert Resolve(up, [s]) == Resolve(up + [s], []);
  }

  /** An entry "../s" escapes to a sibling of the destination and is rejected. */
  lemma ParentEscapeRejected(dest: string, s: string)
    requires Plain(s)
    ensures NewFile(dest, "../" + s).Err?
  {
    ParentEntryChain(dest, s);
    InsideIff(dest, "../" + s);
  }

  /**
   * A sibling whose name extends the destination's name ("dest-x") is
   * rejected although its canonical path starts with the destination's
   * canonical path as a string: the separator in the guard is what rejects it.
   */
  lemma SiblingWithSharedPrefixRejected(dest: string)
    requires Canonical(dest) != []
    ensures var d := Canonical(dest);
            var name := "../" + d[|d| - 1] + "-x";
            && NewFile(dest, name).Err?
            && StartsWith(CanonicalPath(EntryPath(dest, name)), CanonicalPath(dest))
  {
    var d := Canonical(dest);
    var last := d[|d| - 1];
    var s := last + "-x";
    SuffixedPlain(last);
    assert "../" + last + "-x" == "../" + s;
    ParentEscapeRejected(dest, s);
    ParentEntryChain(dest, s);
    var up := d[..|d| - 1];
    assert d == up + [last];
    RenderExtendLast(up, last, "-x");
    assert Render(d) <= Render(d) + "-x";
  }

  /** A segment with "-x" appended is still a plain name. */
  lemma SuffixedPlain(last: string)
    requires NoSlash(last)
    ensures Plain(last + "-x")
  {
    var s := last + "-x";
    assert s[|s| - 1] == 'x';
    assert forall j :: 0 <= j < |s| ==> s[j] == (if j < |last| then last[j] else "-x"[j - |last|]);
  }

  /** Lengthening the last segment lengthens the rendered path by the same characters. */
  lemma RenderExtendLast(up: seq<string>, last: string, more: string)
    ensures Render(up + [last + more]) == Render(up + [last]) + more
  {
    RenderAppend(up, [last + more]);
    RenderAppend(up, [last]);
    assert Render([last + more]) == "/" + (last + more);
    assert Render([last]) == "/" + last;
  }

  /** A bare ".." entry names the destination's parent and is rejected. */
  lemma ParentRejected(dest: string)
    ensures NewFile(dest, "..").Err?
  {
    EntryChain(dest, "..");
    SplitFieldsNone("..", '/');
    InsideIff(dest, "..");
  }
}
