/** The project accessors of the web interface: the record shapes the API
    answers with, the relative request paths the four accessors hand to the
    HTTP transport, and the client-side route builder `path`. */
module ProjectApi {
  import opened Wrappers

  // ---------------------------------------------------------------------
  // Records returned by the API (plain JSON shapes, never validated)
  // ---------------------------------------------------------------------

  type Urn = string

  datatype Anchor = Anchor(stateHash: string)

  datatype Project = Project(id: string, anchor: Anchor)

  datatype Meta = Meta(name: string, description: string, maintainers: seq<Urn>)

  datatype Info = Info(head: string, meta: Meta)

  datatype Stats = Stats(commits: int, contributors: int)

  datatype Author = Author(avatar: string, email: string, name: string)

  /** The kind of a repository object. */
  datatype ObjectType = BlobObject | TreeObject

  /** The string the API uses for each kind of object. */
  function ObjectTypeName(t: ObjectType): (s: string)
    ensures |s| == 4
    ensures s == "BLOB" <==> t.BlobObject?
    ensures s == "TREE" <==> t.TreeObject?
  {
    match t
    case BlobObject => "BLOB"
    case TreeObject => "TREE"
  }

  datatype CommitHeader = CommitHeader(
    author: Author,
    committer: Author,
    committerTime: int,
    description: string,
    sha1: string,
    summary: string)

  datatype EntryInfo = EntryInfo(name: string, objectType: ObjectType, lastCommit: CommitHeader)

  datatype Entry = Entry(path: string, info: EntryInfo)

  datatype Tree = Tree(path: string, info: EntryInfo, entries: seq<Entry>, stats: Stats)

  datatype Blob = Blob(
    binary: Option<bool>,
    html: Option<bool>,
    content: string,
    path: string,
    info: EntryInfo)

  // ---------------------------------------------------------------------
  // String helpers
  // ---------------------------------------------------------------------

  predicate StartsWith(s: string, prefix: string) {
    |prefix| <= |s| && s[..|prefix|] == prefix
  }

  predicate EndsWith(s: string, suffix: string) {
    |suffix| <= |s| && s[|s| - |suffix|..] == suffix
  }

  /** `part` occurs verbatim in `s` starting at offset `at`. */
  predicate Spliced(s: string, at: nat, part: string) {
    at + |part| <= |s| && s[at..at + |part|] == part
  }

  lemma StartsWithAppend(a: string, b: string)
    ensures StartsWith(a + b, a)
  {
    assert (a + b)[..|a|] == a;
  }

  lemma EndsWithAppend(a: string, b: string)
    ensures EndsWith(a + b, b)
  {
    assert (a + b)[|a|..] == b;
  }

  lemma StartsWithTrans(s: string, t: string, u: string)
    requires StartsWith(s, t) && StartsWith(t, u)
    ensures StartsWith(s, u)
  {
    assert s[..|u|] == s[..|t|][..|u|];
  }

  lemma EndsWithTrans(s: string, t: string, u: string)
    requires EndsWith(s, t) && EndsWith(t, u)
    ensures EndsWith(s, u)
  {
    assert s[|s| - |u|..] == s[|s| - |t|..][|t| - |u|..];
  }

  /** What a concatenation keeps of its parts: the left part at offset 0,
      the right part right after it. */
  lemma SplicedAppend(a: string, b: string)
    ensures Spliced(a + b, 0, a) && Spliced(a + b, |a|, b)
  {
    assert (a + b)[..|a|] == a;
    assert (a + b)[|a|..|a| + |b|] == b;
  }

  /** Appending keeps what was already spliced in. */
  lemma SplicedExtend(a: string, at: nat, part: string, b: string)
    requires Spliced(a, at, part)
    ensures Spliced(a + b, at, part)
  {
    assert (a + b)[at..at + |part|] == a[at..at + |part|];
  }

  /** Where each of five concatenated parts sits in the result. */
  lemma SplicedParts(a: string, b: string, c: string, d: string, e: string)
    ensures var r := a + b + c + d + e;
      StartsWith(r, a) && Spliced(r, |a|, b) && Spliced(r, |a| + |b|, c) &&
      Spliced(r, |a| + |b| + |c|, d) && EndsWith(r, e)
  {
    SplicedAppend(a, b);
    SplicedAppend(a + b, c);
    SplicedExtend(a + b, |a|, b, c);
    SplicedAppend(a + b + c, d);
    SplicedExtend(a + b + c, |a|, b, d);
    SplicedExtend(a + b + c, |a| + |b|, c, d);
    var abcd := a + b + c + d;
    SplicedExtend(abcd, |a|, b, e);
    SplicedExtend(abcd, |a| + |b|, c, e);
    SplicedExtend(abcd, |a| + |b| + |c|, d, e);
    StartsWithAppend(a, b + c + d + e);
    assert a + (b + c + d + e) == abcd + e;
    EndsWithAppend(abcd, e);
  }

  /** Sum of the lengths of the strings in `segs`. */
  function TotalLength(segs: seq<string>): nat {
    if segs == [] then 0 else |segs[0]| + TotalLength(segs[1..])
  }

  /** `Array.prototype.join`: the strings of `segs`, with `sep` between
      each pair of neighbours. */
  function Join(segs: seq<string>, sep: string): string
    decreases |segs|
  {
    if |segs| == 0 then ""
    else if |segs| == 1 then segs[0]
    else segs[0] + sep + Join(segs[1..], sep)
  }

  /** A join opens with the first string, closes with the last, and its
      length is the strings' lengths plus one separator per gap. */
  lemma {:induction false} JoinShape(segs: seq<string>, sep: string)
    requires segs != []
    ensures StartsWith(Join(segs, sep), segs[0])
    ensures EndsWith(Join(segs, sep), segs[|segs| - 1])
    ensures |Join(segs, sep)| == TotalLength(segs) + (|segs| - 1) * |sep|
    decreases |segs|
  {
    if |segs| > 1 {
      var rest := Join(segs[1..], sep);
      JoinShape(segs[1..], sep);
      assert Join(segs, sep) == segs[0] + sep + rest;
      assert segs[1..][|segs| - 2] == segs[|segs| - 1];
      var last := segs[|segs| - 1];
      assert (segs[0] + sep + rest)[|segs[0] + sep + rest| - |last|..] == rest[|rest| - |last|..];
    }
  }

  /** Every string of `segs` with a `/` in front of it. */
  function Slashed(segs: seq<string>): string
    decreases |segs|
  {
    if segs == [] then "" else "/" + segs[0] + Slashed(segs[1..])
  }

  /** A `/` followed by the join with `/` puts a `/` before every string. */
  lemma {:induction false} JoinSlashed(segs: seq<string>)
    requires segs != []
    ensures "/" + Join(segs, "/") == Slashed(segs)
    decreases |segs|
  {
    if |segs| > 1 {
      JoinSlashed(segs[1..]);
    }
  }

  lemma {:induction false} SlashedAppend(a: seq<string>, b: seq<string>)
    ensures Slashed(a + b) == Slashed(a) + Slashed(b)
    decreases |a|
  {
    if a != [] {
      assert (a + b)[1..] == a[1..] + b;
      SlashedAppend(a[1..], b);
    } else {
      assert a + b == b;
    }
  }

  // ---------------------------------------------------------------------
  // Client-side routes: path({ urn, org?, commit?, path? })
  // ---------------------------------------------------------------------

  /** The options object of `path`; only `urn` is required. */
  datatype RouteOptions = RouteOptions(
    urn: string,
    org: Option<string>,
    commit: Option<string>,
    path: Option<string>)

  /** JavaScript truthiness of an optional string: neither `undefined`
      nor the empty string. */
  predicate Present(o: Option<string>) {
    o.Some? && o.value != ""
  }

  /** Number of segments before `"projects"`: two when an organisation is given. */
  function OrgWidth(opts: RouteOptions): nat {
    if Present(opts.org) then 2 else 0
  }

  /** `orgs/<org>` when an organisation is given. */
  function OrgSegments(opts: RouteOptions): seq<string> {
    if Present(opts.org) then ["orgs", opts.org.value] else []
  }

  /** The commit, or `head` when only a path is given. */
  function RevisionSegments(opts: RouteOptions): seq<string> {
    if Present(opts.commit) then [opts.commit.value]
    else if Present(opts.path) then ["head"]
    else []
  }

  function PathSegments(opts: RouteOptions): seq<string> {
    if Present(opts.path) then [opts.path.value] else []
  }

  /** The segments `path` collects, in order: `orgs/<org>`, `projects/<urn>`,
      the commit or the literal `head`, and the path. */
  function Segments(opts: RouteOptions): (segs: seq<string>)
    ensures 2 <= |segs| <= 6
    ensures OrgWidth(opts) + 2 <= |segs|
    ensures segs[OrgWidth(opts)] == "projects" && segs[OrgWidth(opts) + 1] == opts.urn
  {
    OrgSegments(opts) + ["projects", opts.urn] + RevisionSegments(opts) + PathSegments(opts)
  }

  /** The route `path` returns: the segments joined by `/`, behind a `/`. */
  function Route(opts: RouteOptions): (r: string)
    ensures |r| > 0 && r[0] == '/'
  {
    "/" + Join(Segments(opts), "/")
  }

  /** The documented route format, written directly as a string:
      `/[orgs/{org}/]projects/{urn}[/{commit}|/head][/{path}]`. */
  function RouteFormat(opts: RouteOptions): string {
    OrgPrefix(opts) + ("/projects/" + opts.urn) + RevisionSuffix(opts) + PathSuffix(opts)
  }

  lemma SlashedOne(x: string)
    ensures Slashed([x]) == "/" + x
  {
    assert [x][1..] == [];
  }

  lemma SlashedPair(x: string, y: string)
    ensures Slashed([x, y]) == "/" + x + "/" + y
  {
    assert [x, y][1..] == [y];
    SlashedOne(y);
  }

  lemma SlashedFour(w: string, x: string, y: string, z: string)
    ensures Slashed([w, x, y, z]) == "/" + w + "/" + x + "/" + y + "/" + z
  {
    assert [w, x, y, z] == [w, x] + [y, z];
    SlashedAppend([w, x], [y, z]);
    SlashedPair(w, x);
    SlashedPair(y, z);
  }

  /** The organisation part of the route, as a string. */
  function OrgPrefix(opts: RouteOptions): string {
    if Present(opts.org) then "/orgs/" + opts.org.value else ""
  }

  /** The commit-or-`head` part of the route, as a string. */
  function RevisionSuffix(opts: RouteOptions): string {
    if Present(opts.commit) then "/" + opts.commit.value
    else if Present(opts.path) then "/head"
    else ""
  }

  /** The path part of the route, as a string. */
  function PathSuffix(opts: RouteOptions): string {
    if Present(opts.path) then "/" + opts.path.value else ""
  }

  /** Joining the segments gives exactly the documented format. */
  lemma RouteMatchesFormat(opts: RouteOptions)
    ensures Route(opts) == RouteFormat(opts)
  {
    var o, r, p := OrgSegments(opts), RevisionSegments(opts), PathSegments(opts);
    var pu := ["projects", opts.urn];
    JoinSlashed(Segments(opts));
    SlashedAppend(o + pu + r, p);
    SlashedAppend(o + pu, r);
    SlashedAppend(o, pu);
    assert Route(opts) == Slashed(o) + Slashed(pu) + Slashed(r) + Slashed(p);
    ProjectsPart(opts.urn);
    OrgPart(opts);
    RevisionPart(opts);
    PathPart(opts);
  }

  lemma ProjectsPart(urn: string)
    ensures Slashed(["projects", urn]) == "/projects/" + urn
  {
    SlashedPair("projects", urn);
  }

  lemma OrgPart(opts: RouteOptions)
    ensures Slashed(OrgSegments(opts)) == OrgPrefix(opts)
  {
    if Present(opts.org) {
      SlashedPair("orgs", opts.org.value);
    }
  }

  lemma RevisionPart(opts: RouteOptions)
    ensures Slashed(RevisionSegments(opts)) == RevisionSuffix(opts)
  {
    if Present(opts.commit) {
      SlashedOne(opts.commit.value);
    } else if Present(opts.path) {
      SlashedOne("head");
    }
  }

  lemma PathPart(opts: RouteOptions)
    ensures Slashed(PathSegments(opts)) == PathSuffix(opts)
  {
    if Present(opts.path) {
      SlashedOne(opts.path.value);
    }
  }


  /** The route builder as the source writes it: a local list that grows
      by conditional pushes and is then joined. */
  method Path(opts: RouteOptions) returns (r: string)
    ensures r == Route(opts)
    ensures r == RouteFormat(opts)
  {
    var result: seq<string> := [];
    if Present(opts.org) {
      result := result + ["orgs", opts.org.value];
    }
    result := result + ["projects", opts.urn];
    if Present(opts.commit) {
      result := result + [opts.commit.value];
    } else if Present(opts.path) {
      result := result + ["head"];
    }
    if Present(opts.path) {
      result := result + [opts.path.value];
    }
    assert result == Segments(opts);
    r := "/" + Join(result, "/");
    RouteMatchesFormat(opts);
  }

  /** `Some("")` is the same as leaving the option out. */
  lemma EmptyOptionIsAbsent(opts: RouteOptions)
    ensures Route(opts.(org := Some(""))) == Route(opts.(org := None))
    ensures Route(opts.(commit := Some(""))) == Route(opts.(commit := None))
    ensures Route(opts.(path := Some(""))) == Route(opts.(path := None))
  {
  }

  /** With no organisation, commit or path, the route is `/projects/<urn>`. */
  lemma BareRoute(opts: RouteOptions)
    requires !Present(opts.org) && !Present(opts.commit) && !Present(opts.path)
    ensures Route(opts) == "/projects/" + opts.urn
  {
    RouteMatchesFormat(opts);
  }

  /** The route opens with `/orgs/<org>/projects/<urn>` when an organisation
      is given, and with `/projects/<urn>` otherwise. */
  lemma RoutePrefix(opts: RouteOptions)
    ensures Present(opts.org) ==>
      StartsWith(Route(opts), "/orgs/" + opts.org.value + ("/projects/" + opts.urn))
    ensures !Present(opts.org) ==> StartsWith(Route(opts), "/projects/" + opts.urn)
  {
    RouteMatchesFormat(opts);
    var x := OrgPrefix(opts) + ("/projects/" + opts.urn);
    var xr := x + RevisionSuffix(opts);
    StartsWithAppend(x, RevisionSuffix(opts));
    StartsWithAppend(xr, PathSuffix(opts));
    StartsWithTrans(xr + PathSuffix(opts), xr, x);
    if !Present(opts.org) {
      assert x == "/projects/" + opts.urn;
    }
  }

  /** A given commit is the segment right after the urn, whether or not a
      path follows, and no `head` segment is added. */
  lemma CommitFollowsUrn(opts: RouteOptions)
    requires Present(opts.commit)
    ensures var w := OrgWidth(opts);
      Segments(opts)[w + 2] == opts.commit.value &&
      Segments(opts)[..w + 2] == (if Present(opts.org) then ["orgs", opts.org.value] else [])
                                 + ["projects", opts.urn] &&
      Segments(opts)[w + 3..] == (if Present(opts.path) then [opts.path.value] else [])
  {
  }

  /** Without a commit, a path is preceded by the literal `head` segment. */
  lemma HeadBeforePath(opts: RouteOptions)
    requires !Present(opts.commit) && Present(opts.path)
    ensures var segs := Segments(opts);
      segs[|segs| - 2..] == ["head", opts.path.value]
    ensures EndsWith(Route(opts), "/head/" + opts.path.value)
  {
    var front, back := OrgSegments(opts) + ["projects", opts.urn], ["head", opts.path.value];
    assert Segments(opts) == front + back;
    JoinSlashed(Segments(opts));
    SlashedAppend(front, back);
    SlashedPair("head", opts.path.value);
    assert "/" + "head" + "/" + opts.path.value == "/head/" + opts.path.value;
    EndsWithAppend(Slashed(front), Slashed(back));
  }

  /** The last string of a non-empty list, behind a `/`, ends its slashed form. */
  lemma {:induction false} SlashedLast(segs: seq<string>)
    requires segs != []
    ensures EndsWith(Slashed(segs), "/" + segs[|segs| - 1])
    decreases |segs|
  {
    var first := "/" + segs[0];
    assert Slashed(segs) == first + Slashed(segs[1..]);
    if |segs| == 1 {
      assert Slashed(segs) == first;
    } else {
      SlashedLast(segs[1..]);
      EndsWithAppend(first, Slashed(segs[1..]));
      EndsWithTrans(Slashed(segs), Slashed(segs[1..]), "/" + segs[|segs| - 1]);
    }
  }

  /** A given path ends the route; without one, the route ends with the
      commit when there is one and with the urn otherwise. */
  lemma RouteSuffix(opts: RouteOptions)
    ensures Present(opts.path) ==> EndsWith(Route(opts), "/" + opts.path.value)
    ensures !Present(opts.path) ==>
      var segs := Segments(opts);
      |segs| == OrgWidth(opts) + 2 + (if Present(opts.commit) then 1 else 0) &&
      EndsWith(Route(opts), "/" + (if Present(opts.commit) then opts.commit.value else opts.urn))
  {
    var segs := Segments(opts);
    JoinSlashed(segs);
    SlashedLast(segs);
    assert segs[|segs| - 1] ==
      if Present(opts.path) then opts.path.value
      else if Present(opts.commit) then opts.commit.value
      else opts.urn;
  }

  /** Documented example: only a urn. */
  lemma BareExample(opts: RouteOptions)
    requires opts == RouteOptions("p1", None, None, None)
    ensures Route(opts) == "/projects/p1"
  {
    assert Segments(opts) == ["projects", "p1"];
    JoinSlashed(["projects", "p1"]);
    SlashedPair("projects", "p1");
  }

  /** Documented example: an organisation and a urn. */
  lemma OrgExample(opts: RouteOptions)
    requires opts == RouteOptions("p1", Some("acme"), None, None)
    ensures Route(opts) == "/orgs/acme/projects/p1"
  {
    var segs := ["orgs", "acme", "projects", "p1"];
    assert Segments(opts) == segs;
    JoinSlashed(segs);
    SlashedFour("orgs", "acme", "projects", "p1");
    OrgExampleText();
  }

  lemma OrgExampleText()
    ensures "/" + "orgs" + "/" + "acme" + "/" + "projects" + "/" + "p1" == "/orgs/acme/projects/p1"
  {
  }

  /** Documented example: a path without a commit. */
  lemma HeadExample(opts: RouteOptions)
    requires opts == RouteOptions("p1", None, None, Some("src/x.ts"))
    ensures Route(opts) == "/projects/p1/head/src/x.ts"
  {
    var segs := ["projects", "p1", "head", "src/x.ts"];
    assert Segments(opts) == segs;
    JoinSlashed(segs);
    SlashedFour("projects", "p1", "head", "src/x.ts");
    HeadExampleText();
  }

  lemma HeadExampleText()
    ensures "/" + "projects" + "/" + "p1" + "/" + "head" + "/" + "src/x.ts" == "/projects/p1/head/src/x.ts"
  {
  }

  /** Documented example: a commit and a path. */
  lemma CommitExample(opts: RouteOptions)
    requires opts == RouteOptions("p1", None, Some("abc123"), Some("src/x.ts"))
    ensures Route(opts) == "/projects/p1/abc123/src/x.ts"
  {
    var segs := ["projects", "p1", "abc123", "src/x.ts"];
    assert Segments(opts) == segs;
    JoinSlashed(segs);
    SlashedFour("projects", "p1", "abc123", "src/x.ts");
    CommitExampleText();
  }

  lemma CommitExampleText()
    ensures "/" + "projects" + "/" + "p1" + "/" + "abc123" + "/" + "src/x.ts" == "/projects/p1/abc123/src/x.ts"
  {
  }

  // ---------------------------------------------------------------------
  // Request paths handed to the transport (relative to the API root)
  // ---------------------------------------------------------------------

  /** `getInfo`: `projects/<urn>`. */
  function InfoUrl(urn: string): (r: string)
    ensures |r| == 9 + |urn|
    ensures StartsWith(r, "projects/") && Spliced(r, 9, urn)
  {
    SplicedAppend("projects/", urn);
    StartsWithAppend("projects/", urn);
    "projects/" + urn
  }

  /** The directory `getTree` requests: `"/"` becomes `""`, anything else
      is kept as it is. */
  function TreeDir(dir: string): (d: string)
    ensures d == "" <==> dir == "" || dir == "/"
    ensures dir != "/" ==> d == dir
  {
    if dir == "/" then "" else dir
  }

  /** `getTree`: `projects/<urn>/tree/<commit>/<dir>`, with the directory
      normalised by `TreeDir`. */
  function TreeUrl(urn: string, commit: string, dir: string): (r: string)
    ensures |r| == 16 + |urn| + |commit| + |TreeDir(dir)|
    ensures StartsWith(r, "projects/") && Spliced(r, 9, urn)
    ensures Spliced(r, 9 + |urn|, "/tree/") && Spliced(r, 15 + |urn|, commit)
    ensures EndsWith(r, "/" + TreeDir(dir))
  {
    SplicedParts("projects/", urn, "/tree/", commit, "/" + TreeDir(dir));
    "projects/" + urn + "/tree/" + commit + ("/" + TreeDir(dir))
  }

  /** `getTree` as written: the `path` parameter is reassigned before the
      request path is built. */
  method GetTreeRequest(urn: string, commit: string, path: string) returns (url: string)
    ensures url == TreeUrl(urn, commit, path)
  {
    var dir := path;
    if dir == "/" {
      dir := "";
    }
    url := "projects/" + urn + "/tree/" + commit + ("/" + dir);
  }

  /** Two tree requests for the same project and commit coincide exactly
      when the directories are equal or both name the root (`""` or `"/"`). */
  lemma {:induction false} TreeUrlSameDir(urn: string, commit: string, d1: string, d2: string)
    ensures TreeUrl(urn, commit, d1) == TreeUrl(urn, commit, d2) <==>
            d1 == d2 || ((d1 == "" || d1 == "/") && (d2 == "" || d2 == "/"))
  {
    var pre := "projects/" + urn + "/tree/" + commit + "/";
    assert TreeUrl(urn, commit, d1) == pre + TreeDir(d1);
    assert TreeUrl(urn, commit, d2) == pre + TreeDir(d2);
    if TreeUrl(urn, commit, d1) == TreeUrl(urn, commit, d2) {
      assert (pre + TreeDir(d1))[|pre|..] == TreeDir(d1);
      assert (pre + TreeDir(d2))[|pre|..] == TreeDir(d2);
    }
  }

  /** `getBlob`: `projects/<urn>/blob/<commit>/<path>`, every input spliced
      in unchanged. */
  function BlobUrl(urn: string, commit: string, path: string): (r: string)
    ensures |r| == 16 + |urn| + |commit| + |path|
    ensures StartsWith(r, "projects/") && Spliced(r, 9, urn)
    ensures Spliced(r, 9 + |urn|, "/blob/") && Spliced(r, 15 + |urn|, commit)
    ensures EndsWith(r, "/" + path)
  {
    SplicedParts("projects/", urn, "/blob/", commit, "/" + path);
    "projects/" + urn + "/blob/" + commit + ("/" + path)
  }

  /** `getReadme`: `projects/<urn>/readme/<commit>`. */
  function ReadmeUrl(urn: string, commit: string): (r: string)
    ensures |r| == 17 + |urn| + |commit|
    ensures StartsWith(r, "projects/") && Spliced(r, 9, urn)
    ensures Spliced(r, 9 + |urn|, "/readme/") && Spliced(r, 17 + |urn|, commit)
  {
    SplicedParts("projects/", urn, "/readme/", commit, "");
    assert "projects/" + urn + "/readme/" + commit + "" == "projects/" + urn + "/readme/" + commit;
    "projects/" + urn + "/readme/" + commit
  }

  /** For one project, the four accessors never request the same path: the
      info path is the shortest of them, and the word after the urn tells
      the tree, blob and readme requests apart. */
  lemma RequestPathsDistinct(urn: string, c1: string, c2: string, d: string, p: string)
    ensures InfoUrl(urn) != TreeUrl(urn, c1, d)
    ensures InfoUrl(urn) != BlobUrl(urn, c1, p)
    ensures InfoUrl(urn) != ReadmeUrl(urn, c1)
    ensures TreeUrl(urn, c1, d) != BlobUrl(urn, c2, p)
    ensures TreeUrl(urn, c1, d) != ReadmeUrl(urn, c2)
    ensures BlobUrl(urn, c1, p) != ReadmeUrl(urn, c2)
  {
    var k := 10 + |urn|;
    var t, b, r := TreeUrl(urn, c1, d), BlobUrl(urn, c1, p), ReadmeUrl(urn, c2);
    var b2 := BlobUrl(urn, c2, p);
    assert t[k] == t[k - 1..k + 5][1] == 't';
    assert b[k] == b[k - 1..k + 5][1] == 'b';
    assert b2[k] == b2[k - 1..k + 5][1] == 'b';
    assert r[k] == r[k - 1..k + 7][1] == 'r';
  }
}
