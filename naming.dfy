/**
 * Node naming: the handler file `main/B/A/index.js` (relative to the scanned
 * source directory) belongs to the node `main:B:A`. The directory part of the
 * relative path is taken and every `/` in it becomes `:`.
 *
 * Paths are the `/`-separated relative strings that `path.relative` yields for
 * the files found beneath the source directory.
 */
module Naming {
  import opened Wrappers

  /** Index of the last `/` in `p`, if there is one. */
  function LastSlash(p: string): (r: Option<nat>)
    ensures r.Some? ==> r.value < |p| && p[r.value] == '/'
    ensures r.Some? ==> forall k :: r.value < k < |p| ==> p[k] != '/'
    ensures r.None? <==> '/' !in p
    decreases |p|
  {
    if p == [] then None
    else if p[|p| - 1] == '/' then Some(|p| - 1)
    else LastSlash(p[..|p| - 1])
  }

  /** The directory part of a path: everything before the last `/`, or "." when there is none. */
  function Dirname(p: string): (d: string)
    ensures '/' in p ==> |d| < |p| && d == p[..|d|] && p[|d|] == '/'
    ensures '/' in p ==> '/' !in p[|d| + 1..]
    ensures '/' !in p ==> d == "."
  {
    match LastSlash(p)
    case None => "."
    case Some(k) => p[..k]
  }

  /** The last segment of a path: everything after the last `/`, or the whole path. */
  function Basename(p: string): (b: string)
    ensures '/' !in b
    ensures '/' in p ==> Dirname(p) + "/" + b == p
    ensures '/' !in p ==> b == p
  {
    match LastSlash(p)
    case None => p
    case Some(k) => p[k + 1..]
  }

  /** `s.replace(/\//g, ':')`: every `/` becomes `:`, every other character stays. */
  function ReplaceSlash(s: string): (r: string)
    ensures |r| == |s|
    ensures forall i :: 0 <= i < |s| ==> r[i] == (if s[i] == '/' then ':' else s[i])
    ensures '/' !in r
  {
    if s == [] then []
    else [if s[0] == '/' then ':' else s[0]] + ReplaceSlash(s[1..])
  }

  /** The node identifier of a handler file given by its relative path (build.ts `makeNodeName`). */
  function MakeNodeName(relative: string): (name: string)
    ensures '/' !in name
    ensures '/' in relative ==> |name| < |relative|
  {
    ReplaceSlash(Dirname(relative))
  }

  /** The import path written into the generated module: the relative path prefixed with "./". */
  function ImportPath(relative: string): (path: string)
    ensures |path| == |relative| + 2 && path[..2] == "./" && path[2..] == relative
  {
    "./" + relative
  }

  /** Segments joined with a separator: the reference meaning of a directory path and of a node id. */
  function JoinWith(segments: seq<string>, sep: char): string
    decreases |segments|
  {
    if segments == [] then ""
    else if |segments| == 1 then segments[0]
    else JoinWith(segments[..|segments| - 1], sep) + [sep] + segments[|segments| - 1]
  }

  predicate NoSlash(segments: seq<string>) {
    forall i :: 0 <= i < |segments| ==> '/' !in segments[i]
  }

  /** Dirname drops exactly the last segment of a path of two or more segments. */
  lemma DirnameDropsLastSegment(segments: seq<string>)
    requires |segments| >= 2 && NoSlash(segments)
    ensures Dirname(JoinWith(segments, '/')) == JoinWith(segments[..|segments| - 1], '/')
    ensures Basename(JoinWith(segments, '/')) == segments[|segments| - 1]
  {
    var init := JoinWith(segments[..|segments| - 1], '/');
    var last := segments[|segments| - 1];
    assert '/' !in last;
    LastSlashBeforeSegment(init, last);
  }

  /** The last `/` of `init + "/" + last`, where `last` has none, is the one just after `init`. */
  lemma LastSlashBeforeSegment(init: string, last: string)
    requires '/' !in last
    ensures LastSlash(init + "/" + last) == Some(|init|)
    ensures (init + "/" + last)[..|init|] == init
    ensures (init + "/" + last)[|init| + 1..] == last
  {
    var p := init + "/" + last;
    forall k | |init| < k < |p| ensures p[k] != '/' {
      assert p[k] == last[k - |init| - 1];
      assert last[k - |init| - 1] in last;
    }
    LastSlashAt(p, |init|);
    assert p[..|init|] == init;
    assert p[|init| + 1..] == last;
  }

  /** A `/` with none after it is the last one. */
  lemma {:induction false} LastSlashAt(p: string, k: nat)
    requires k < |p| && p[k] == '/'
    requires forall j :: k < j < |p| ==> p[j] != '/'
    ensures LastSlash(p) == Some(k)
    decreases |p|
  {
    if k < |p| - 1 {
      var prefix := p[..|p| - 1];
      assert prefix[k] == '/';
      LastSlashAt(prefix, k);
    }
  }

  /** Replacing the slashes of a `/`-joined path gives the same segments joined by `:`. */
  lemma {:induction false} ReplaceSlashJoin(segments: seq<string>)
    requires NoSlash(segments)
    ensures ReplaceSlash(JoinWith(segments, '/')) == JoinWith(segments, ':')
    decreases |segments|
  {
    if |segments| >= 2 {
      var init := segments[..|segments| - 1];
      var last := segments[|segments| - 1];
      ReplaceSlashJoin(init);
      ReplaceSlashUnchanged(last);
      ReplaceSlashAppend(JoinWith(init, '/') + "/", last);
      ReplaceSlashAppend(JoinWith(init, '/'), "/");
    } else if |segments| == 1 {
      ReplaceSlashUnchanged(segments[0]);
    }
  }

  lemma ReplaceSlashUnchanged(s: string)
    requires '/' !in s
    ensures ReplaceSlash(s) == s
  {
    assert forall i :: 0 <= i < |s| ==> s[i] != '/';
  }

  lemma ReplaceSlashAppend(a: string, b: string)
    ensures ReplaceSlash(a + b) == ReplaceSlash(a) + ReplaceSlash(b)
  {
    var l, r := ReplaceSlash(a + b), ReplaceSlash(a) + ReplaceSlash(b);
    forall i | 0 <= i < |l| ensures l[i] == r[i] {
      if i < |a| { assert (a + b)[i] == a[i]; } else { assert (a + b)[i] == b[i - |a|]; }
    }
  }

  /**
   * The node identifier of `d1/.../dn/file` is `d1:...:dn`: the directory
   * segments joined by colons. For n == 1 this is the bare root name.
   */
  lemma NodeNameOfSegments(directories: seq<string>, file: string)
    requires |directories| >= 1 && NoSlash(directories) && '/' !in file
    ensures MakeNodeName(JoinWith(directories + [file], '/')) == JoinWith(directories, ':')
  {
    var segments := directories + [file];
    assert segments[..|segments| - 1] == directories;
    DirnameDropsLastSegment(segments);
    ReplaceSlashJoin(directories);
  }

  /** The node of `dir/file` is `dir` with its slashes replaced. */
  lemma NodeNameOfFileIn(dir: string, file: string)
    requires '/' !in file
    ensures MakeNodeName(dir + "/" + file) == ReplaceSlash(dir)
  {
    LastSlashBeforeSegment(dir, file);
  }

  /** The root handler `main/index.js` is the node `main`. */
  lemma RootNodeName()
    ensures MakeNodeName("main/index.js") == "main"
  {
    NodeNameOfFileIn("main", "index.js");
    assert "main" + "/" + "index.js" == "main/index.js";
  }

  /** The nested handler `main/B/A/index.js` is the node `main:B:A`. */
  lemma NestedNodeName()
    ensures MakeNodeName("main/B/A/index.js") == "main:B:A"
  {
    NodeNameOfFileIn("main/B/A", "index.js");
    NestedSpelling();
  }

  /* The literal facts behind each example, proved apart from it to keep each proof small. */
  lemma NestedSpelling()
    ensures "main/B/A" + "/" + "index.js" == "main/B/A/index.js"
    ensures ReplaceSlash("main/B/A") == "main:B:A"
  {
  }

  lemma ColonSpelling()
    ensures "main/a:b" + "/" + "index.js" == "main/a:b/index.js"
    ensures ReplaceSlash("main/a:b") == "main:a:b"
  {
  }

  lemma NestedABSpelling()
    ensures "main/a/b" + "/" + "index.js" == "main/a/b/index.js"
    ensures ReplaceSlash("main/a/b") == "main:a:b"
  {
  }

  /** On directory paths without `:`, replacing slashes loses nothing. */
  lemma ReplaceSlashInjective(a: string, b: string)
    requires ':' !in a && ':' !in b
    requires ReplaceSlash(a) == ReplaceSlash(b)
    ensures a == b
  {
    var r := ReplaceSlash(a);
    forall i | 0 <= i < |a| ensures a[i] == b[i] {
      assert a[i] in a && b[i] in b;
      assert r[i] == ':' <==> a[i] == '/';
    }
  }

  /**
   * Two handler files with the same file name (the `index.js` convention) and
   * no `:` in their paths belong to the same node only if they are the same file.
   */
  lemma NodeNameDeterminesFile(p: string, q: string)
    requires '/' in p && '/' in q
    requires Basename(p) == Basename(q)
    requires ':' !in p && ':' !in q
    ensures MakeNodeName(p) == MakeNodeName(q) ==> p == q
  {
    if MakeNodeName(p) == MakeNodeName(q) {
      var dp, dq := Dirname(p), Dirname(q);
      assert forall c :: c in dp ==> c in p;
      assert forall c :: c in dq ==> c in q;
      ReplaceSlashInjective(dp, dq);
    }
  }

  /**
   * A `:` inside a directory name makes two handler directories collide:
   * `main/a:b` and `main/a/b` are both the node `main:a:b`.
   */
  lemma ColonInDirectoryCollides()
    ensures MakeNodeName("main/a:b/index.js") == MakeNodeName("main/a/b/index.js")
  {
    ColonDirectoryName();
    NestedDirectoryName();
  }

  lemma ColonDirectoryName()
    ensures MakeNodeName("main/a:b/index.js") == "main:a:b"
  {
    NodeNameOfFileIn("main/a:b", "index.js");
    ColonSpelling();
  }

  lemma NestedDirectoryName()
    ensures MakeNodeName("main/a/b/index.js") == "main:a:b"
  {
    NodeNameOfFileIn("main/a/b", "index.js");
    NestedABSpelling();
  }
}
