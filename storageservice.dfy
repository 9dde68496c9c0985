/**
 * The client of the remote file store (storage_service.go): an
 * authentication token fetched once and cached, uploads through an upload
 * link, streamed and buffered downloads, and deletes. The network is an
 * oracle that answers each request with a response or a transport failure;
 * a response is its status, how its body decodes as JSON, its raw bytes and
 * its Content-Type header.
 */
module StorageService {
  import opened Outcomes
  import opened Text
  import opened MediaModel

  datatype Config = Config(url: string, username: string, password: string, repoId: string)

  /**
   * How a body decodes: a JSON string, the JSON literal null, a JSON object
   * whose "token" member is a string (the empty string when the member is
   * absent or null), any other JSON value, or no JSON at all. Decoding null
   * succeeds and leaves the target as it was.
   */
  datatype Body = JsonString(s: string) | JsonNull | TokenObject(token: string) | Other | Undecodable

  datatype Response = Response(status: int, body: Body, data: Bytes, contentType: string, readable: bool)

  datatype RequestBody =
    | NoBody
    | FormBody(text: string)
    | Multipart(fileName: string, data: Bytes, fields: seq<(string, string)>)

  datatype Request = Request(verb: string, url: string, headers: seq<(string, string)>, body: RequestBody)

  /** The network: the response to a request, or none when the transport fails. */
  datatype Net = Net(respond: Request -> Option<Response>)

  /** What the HTTP client gets back: a request without a URL has no scheme and is refused before it reaches the network. */
  function Deliver(net: Net, req: Request): (resp: Option<Response>)
    ensures req.url == "" ==> resp.None?
    ensures req.url != "" ==> resp == net.respond(req)
  {
    if req.url == "" then None else net.respond(req)
  }

  /** The request each failure belongs to. */
  datatype Step = AuthToken | UploadLink | UploadFile | FileLink | Stream | ReadBody | DeleteFile

  datatype StorageError =
    | Transport(step: Step)
    | BadStatus(step: Step, status: int)
    | BadBody(step: Step)
    | UnexpectedReply(reply: string)

  /** What an operation does to the client: the token afterwards, the requests it sent in order, its result. */
  datatype Trace<T> = Trace(token: string, sent: seq<Request>, result: Result<T, StorageError>)

  const StatusOK: int := 200
  const StatusPartialContent: int := 206

  // ---------------------------------------------------------------------
  // URLs and paths
  // ---------------------------------------------------------------------

  function AuthUrl(cfg: Config): string {
    cfg.url + "/auth-token/"
  }

  /** `{url}/repos/{repo}/upload-link/?p={dir}` */
  function UploadLinkUrl(cfg: Config, parentDir: string): string {
    cfg.url + "/repos/" + cfg.repoId + "/upload-link/?p=" + parentDir
  }

  /** `{url}/repos/{repo}/file/?p=/{path}`, used both to look a file up and to delete it. */
  function FileUrl(cfg: Config, path: string): (u: string)
    ensures HasSuffix(u, "/file/?p=/" + path)
  {
    var head := cfg.url + "/repos/" + cfg.repoId;
    assert head + "/file/?p=/" + path == head + ("/file/?p=/" + path);
    head + "/file/?p=/" + path
  }

  /** Different paths give different file URLs. */
  lemma FileUrlInjective(cfg: Config, p1: string, p2: string)
    requires FileUrl(cfg, p1) == FileUrl(cfg, p2)
    ensures p1 == p2
  {
    var head := cfg.url + "/repos/" + cfg.repoId + "/file/?p=/";
    assert FileUrl(cfg, p1) == head + p1 && FileUrl(cfg, p2) == head + p2;
    assert p1 == (head + p1)[|head|..] && p2 == (head + p2)[|head|..];
  }

  /** The form the token request posts; neither value is URL-encoded. */
  function AuthForm(cfg: Config): string {
    "username=" + cfg.username + "&password=" + cfg.password
  }

  /** The last position of `c` in `s`. */
  function LastIndex(s: string, c: char): (r: Option<nat>)
    ensures r.None? <==> c !in s
    ensures r.Some? ==> r.value < |s| && s[r.value] == c && c !in s[r.value + 1..]
  {
    if s == [] then None
    else if s[|s| - 1] == c then Some(|s| - 1)
    else
      var r := LastIndex(s[..|s| - 1], c);
      assert s == s[..|s| - 1] + [s[|s| - 1]];
      if r.Some? then
        assert s[r.value + 1..] == s[..|s| - 1][r.value + 1..] + [s[|s| - 1]];
        r
      else r
  }

  // `filepath.Clean`, `filepath.Dir` and `filepath.Base` on slash-separated paths

  /** An element of a clean relative path: not empty, no slash, neither "." nor "..". */
  predicate Proper(e: string) {
    e != "" && e != "." && e != ".." && '/' !in e
  }

  predicate AllProper(elems: seq<string>) {
    forall k :: 0 <= k < |elems| ==> Proper(elems[k])
  }

  /** The parts between slashes that `Clean` keeps: empty parts and "." go. */
  function Kept(parts: seq<string>): seq<string> {
    if parts == [] then []
    else (if parts[0] == "" || parts[0] == "." then [] else [parts[0]]) + Kept(parts[1..])
  }

  /**
   * The ".." elements, left to right: one removes the element before it when
   * that is not itself ".."; one that has nothing to remove stays in a
   * relative path and is dropped at the root.
   */
  function Resolve(stack: seq<string>, elems: seq<string>, rooted: bool): seq<string>
    decreases |elems|
  {
    if elems == [] then stack
    else if elems[0] == ".." then
      if |stack| > 0 && stack[|stack| - 1] != ".." then Resolve(stack[..|stack| - 1], elems[1..], rooted)
      else if rooted then Resolve(stack, elems[1..], rooted)
      else Resolve(stack + [".."], elems[1..], rooted)
    else Resolve(stack + [elems[0]], elems[1..], rooted)
  }

  /** `filepath.Clean`: "." for the empty path; a rooted path keeps its one leading slash. */
  function Clean(path: string): string {
    if path == [] then "."
    else
      var rooted := path[0] == '/';
      var out := Join(Resolve([], Kept(SplitOn(path, "/")), rooted), "/");
      if rooted then "/" + out else if out == "" then "." else out
  }

  /** `filepath.Dir`: everything up to the last slash, cleaned; "." without a slash. */
  function Dir(path: string): string {
    Clean(match LastIndex(path, '/') case None => "" case Some(i) => path[..i + 1])
  }

  /** The path without its trailing slashes. */
  function TrimTrailingSlashes(s: string): (r: string)
    ensures HasPrefix(s, r) && (r == [] || r[|r| - 1] != '/')
    ensures forall k :: |r| <= k < |s| ==> s[k] == '/'
  {
    if s != [] && s[|s| - 1] == '/' then TrimTrailingSlashes(s[..|s| - 1]) else s
  }

  /**
   * `filepath.Base`: the last element once trailing slashes are stripped;
   * "." for the empty path and "/" for a path of slashes only.
   */
  function Base(path: string): (b: string)
    ensures b != ""
    ensures b == "/" || '/' !in b
    ensures path != [] && '/' !in path ==> b == path
  {
    if path == [] then "."
    else
      var p := TrimTrailingSlashes(path);
      var tail := match LastIndex(p, '/') case None => p case Some(i) => p[i + 1..];
      if tail == [] then "/" else tail
  }

  /** Trailing slashes make no difference to the base of a non-empty path, so "a/b/" gives "b". */
  lemma BaseIgnoresTrailingSlash(path: string)
    requires path != []
    ensures Base(path + "/") == Base(path)
  {
    assert (path + "/")[..|path|] == path;
  }

  /** The directory part of a path whose last slash is at position `i`. */
  lemma DirAt(path: string, i: nat)
    requires i < |path| && path[i] == '/' && '/' !in path[i + 1..]
    ensures Dir(path) == Clean(path[..i + 1])
  {
    LastIndexAt(path, '/', i);
  }

  /** A relative path is cleaned from the parts of its split. */
  lemma CleanRelative(path: string, parts: seq<string>, elems: seq<string>)
    requires path != [] && path[0] != '/' && SplitOn(path, "/") == parts && Resolve([], Kept(parts), false) == elems
    ensures Clean(path) == if Join(elems, "/") == "" then "." else Join(elems, "/")
  {
  }

  /** The last slash of `a + mid + name` for a slash-free name is the last character of `mid`. */
  lemma LastSlashBefore(a: string, mid: string, name: string)
    requires |mid| >= 1 && mid[|mid| - 1] == '/' && '/' !in name
    ensures Dir(a + mid + name) == Clean(a + mid)
  {
    var p := a + mid + name;
    var i := |a| + |mid| - 1;
    assert p[i] == '/' && p[i + 1..] == name && p[..i + 1] == a + mid;
    DirAt(p, i);
  }

  /** The split of an element, a slash, a slash-free part and a final slash. */
  lemma SplitThree(a: string, x: string)
    requires '/' !in a && '/' !in x
    ensures SplitOn(a + "/" + x + "/", "/") == [a, x, ""]
  {
    SplitThreeFlat(a, x);
    assert a + "/" + (x + "/") == a + "/" + x + "/";
  }

  /** `SplitThreeGrouped` with the parts listed flat. */
  lemma SplitThreeFlat(a: string, x: string)
    requires '/' !in a && '/' !in x
    ensures SplitOn(a + "/" + (x + "/"), "/") == [a, x, ""]
  {
    SplitThreeGrouped(a, x);
    assert [a] + [x, ""] == [a, x, ""];
  }

  /** `SplitThree` with the final slash grouped with `x`. */
  lemma SplitThreeGrouped(a: string, x: string)
    requires '/' !in a && '/' !in x
    ensures SplitOn(a + "/" + (x + "/"), "/") == [a] + [x, ""]
  {
    SplitTwo(x);
    SplitStep(a, x + "/");
  }

  /** The split of a slash-free part and a final slash. */
  lemma SplitTwo(x: string)
    requires '/' !in x
    ensures SplitOn(x + "/", "/") == [x, ""]
  {
    var e: string := "";
    assert x + "/" + e == x + "/";
    SplitOnNoSlash(e);
    SplitStep(x, e);
  }

  /** What `Clean` keeps of three parts ending in an empty one. */
  lemma KeptThree(a: string, x: string)
    requires Proper(a)
    ensures Kept([a, x, ""]) == [a] + (if x == "" || x == "." then [] else [x])
  {
    KeptAppend([a], [x, ""]);
    assert [a] + [x, ""] == [a, x, ""];
    assert [a][1..] == [] && [x, ""][1..] == [""] && [""][1..] == [];
  }

  /** Dir collapses repeated slashes: "a//b" has directory "a". */
  lemma DirCollapsesSlashes(a: string, b: string)
    requires Proper(a) && '/' !in b
    ensures Dir(a + "//" + b) == a
  {
    LastSlashBefore(a, "//", b);
    SplitThree(a, "");
    assert a + "/" + "" + "/" == a + "//";
    KeptThree(a, "");
    assert Resolve([], [a], false) == [a];
    assert (a + "//")[0] == a[0] && a[0] in a;
    CleanRelative(a + "//", [a, "", ""], [a]);
  }

  /** Dir drops "." elements: "a/./b" has directory "a". */
  lemma DirDropsDot(a: string, b: string)
    requires Proper(a) && '/' !in b
    ensures Dir(a + "/./" + b) == a
  {
    LastSlashBefore(a, "/./", b);
    SplitThree(a, ".");
    assert a + "/" + "." + "/" == a + "/./";
    KeptThree(a, ".");
    assert Resolve([], [a], false) == [a];
    assert (a + "/./")[0] == a[0] && a[0] in a;
    CleanRelative(a + "/./", [a, ".", ""], [a]);
  }

  /** Dir applies "..": "a/../b" has directory ".". */
  lemma DirResolvesParent(a: string, b: string)
    requires Proper(a) && '/' !in b
    ensures Dir(a + "/../" + b) == "."
  {
    LastSlashBefore(a, "/../", b);
    CleanParent(a);
  }

  /** "a/../" cleans to ".". */
  lemma CleanParent(a: string)
    requires Proper(a)
    ensures Clean(a + "/../") == "."
  {
    SplitThree(a, "..");
    assert a + "/" + ".." + "/" == a + "/../";
    KeptThree(a, "..");
    ResolveParent(a);
    assert (a + "/../")[0] == a[0] && a[0] in a;
    CleanRelative(a + "/../", [a, "..", ""], []);
  }

  /** An element followed by ".." cancels out. */
  lemma ResolveParent(a: string)
    requires Proper(a)
    ensures Resolve([], [a] + [".."], false) == []
  {
    var elems := [a] + [".."];
    assert elems[0] == a && elems[1..] == [".."];
    assert [] + [a] == [a];
    assert Resolve([], elems, false) == Resolve([a], [".."], false);
    assert [a][..0] == [] && [".."][1..] == [];
  }

  /** A top-level entry's directory is the root, and a bare name's is ".". */
  lemma DirTopLevel()
    ensures Dir("/a") == "/"
    ensures Dir("a") == "."
  {
    LastIndexAt("/a", '/', 0);
    assert "/a"[..1] == "" + "/" + "";
    SplitStep("", "");
    SplitOnNoSlash("");
    assert Kept(["", ""]) == [];
  }

  /** Base strips trailing slashes; a path of slashes only has base "/", the empty path ".". */
  lemma BaseStrips()
    ensures Base("a/b/") == "b"
    ensures Base("/") == "/"
    ensures Base("") == "."
  {
    assert "a/b/"[..|"a/b/"| - 1] == "a/b";
    LastIndexAt("a/b", '/', 1);
    assert "a/b"[2..] == "b";
    assert "/"[..0] == "";
  }

  /** The split of a slash-free element, a slash and the rest. */
  lemma SplitStep(x: string, rest: string)
    requires '/' !in x
    ensures SplitOn(x + "/" + rest, "/") == [x] + SplitOn(rest, "/")
  {
    var s := x + "/" + rest;
    assert s[|x|..|x| + 1] == "/";
    assert IsAt(s, "/", |x|);
    forall j: nat | j < |x| ensures !IsAt(s, "/", j) {
      assert s[j..j + 1] == [x[j]];
      assert x[j] in x;
    }
    assert FindSub(s, "/") == Some(|x|);
    assert s[..|x|] == x && s[|x| + 1..] == rest;
  }

  /** A slash-free string splits into itself. */
  lemma SplitOnNoSlash(x: string)
    requires '/' !in x
    ensures SplitOn(x, "/") == [x]
  {
    forall j: nat | j <= |x| ensures !IsAt(x, "/", j) {
      if j + 1 <= |x| {
        assert x[j..j + 1] == [x[j]];
        assert x[j] in x;
      }
    }
    assert FindSub(x, "/") == None;
  }

  /** Joining elements always starts with the first one. */
  lemma JoinStarts(elems: seq<string>)
    requires |elems| >= 1
    ensures HasPrefix(Join(elems, "/"), elems[0])
  {
  }

  /** Slash-free elements joined with slashes, plus one more slash, split back into the elements and an empty tail. */
  lemma {:induction false} SplitJoined(elems: seq<string>)
    requires |elems| >= 1 && forall k :: 0 <= k < |elems| ==> '/' !in elems[k]
    ensures SplitOn(Join(elems, "/") + "/", "/") == elems + [""]
    decreases |elems|
  {
    if |elems| == 1 {
      SplitStep(elems[0], "");
      SplitOnNoSlash("");
      assert Join(elems, "/") + "/" == elems[0] + "/" + "";
    } else {
      var tail := elems[1..];
      SplitJoined(tail);
      JoinCons(elems[0], tail, "/");
      assert elems == [elems[0]] + tail;
      assert Join(elems, "/") + "/" == elems[0] + "/" + (Join(tail, "/") + "/");
      SplitStep(elems[0], Join(tail, "/") + "/");
    }
  }

  lemma {:induction false} KeptAppend(a: seq<string>, b: seq<string>)
    ensures Kept(a + b) == Kept(a) + Kept(b)
    decreases |a|
  {
    if a != [] {
      assert (a + b)[1..] == a[1..] + b;
      KeptAppend(a[1..], b);
    } else {
      assert a + b == b;
    }
  }

  lemma {:induction false} KeptProper(elems: seq<string>)
    requires AllProper(elems)
    ensures Kept(elems) == elems
    decreases |elems|
  {
    if elems != [] {
      assert AllProper(elems[1..]) by {
        forall k | 0 <= k < |elems[1..]| ensures Proper(elems[1..][k]) {
          assert elems[1..][k] == elems[k + 1];
        }
      }
      KeptProper(elems[1..]);
      assert Proper(elems[0]);
      assert elems == [elems[0]] + elems[1..];
    }
  }

  lemma {:induction false} ResolveProper(stack: seq<string>, elems: seq<string>, rooted: bool)
    requires AllProper(elems)
    ensures Resolve(stack, elems, rooted) == stack + elems
    decreases |elems|
  {
    if elems != [] {
      assert AllProper(elems[1..]) by {
        forall k | 0 <= k < |elems[1..]| ensures Proper(elems[1..][k]) {
          assert elems[1..][k] == elems[k + 1];
        }
      }
      assert Proper(elems[0]);
      ResolveProper(stack + [elems[0]], elems[1..], rooted);
      assert stack + [elems[0]] + elems[1..] == stack + elems;
    }
  }

  /** Cleaning the directory part of a clean relative path only drops its trailing slash. */
  lemma CleanDirectory(elems: seq<string>)
    requires |elems| >= 1 && AllProper(elems)
    ensures Clean(Join(elems, "/") + "/") == Join(elems, "/")
  {
    var j := Join(elems, "/");
    ProperNoSlash(elems);
    SplitJoined(elems);
    KeptDirectory(elems);
    ResolveProper([], elems, false);
    assert [] + elems == elems;
    JoinStarts(elems);
    assert Proper(elems[0]);
    assert (j + "/")[0] == elems[0][0];
    assert elems[0][0] in elems[0];
    CleanRelative(j + "/", elems + [""], elems);
  }

  /** Proper elements hold no slash. */
  lemma ProperNoSlash(elems: seq<string>)
    requires AllProper(elems)
    ensures forall k :: 0 <= k < |elems| ==> '/' !in elems[k]
  {
    forall k | 0 <= k < |elems| ensures '/' !in elems[k] {
      assert Proper(elems[k]);
    }
  }

  /** The empty part after a final slash is dropped. */
  lemma KeptDirectory(elems: seq<string>)
    requires AllProper(elems)
    ensures Kept(elems + [""]) == elems
  {
    KeptAppend(elems, [""]);
    assert Kept([""]) == [];
    KeptProper(elems);
  }

  /**
   * A clean relative path with a directory: `Dir` and `Base` are the parts
   * before and after the last slash, and put together with a slash they give
   * the path back.
   */
  lemma DirBase(dirs: seq<string>, name: string)
    requires |dirs| >= 1 && AllProper(dirs) && name != "" && '/' !in name
    ensures var path := Join(dirs, "/") + "/" + name;
      Dir(path) == Join(dirs, "/") && Base(path) == name && Dir(path) + "/" + Base(path) == path
  {
    var j := Join(dirs, "/");
    var path := j + "/" + name;
    assert path[|j| + 1..] == name;
    LastIndexAt(path, '/', |j|);
    assert path[..|j| + 1] == j + "/";
    CleanDirectory(dirs);
    assert path[|path| - 1] == name[|name| - 1];
    assert name[|name| - 1] in name;
  }

  /** A later occurrence of `c` lies in the tail after any earlier position. */
  lemma CharAfter(s: string, c: char, i: nat, j: nat)
    requires i < |s| && j < |s|
    ensures i < j && s[j] == c ==> c in s[i + 1..]
  {
    if i < j && s[j] == c {
      assert s[i + 1..][j - i - 1] == c;
    }
  }

  /** A position holding `c` with no `c` after it is the last position of `c`. */
  lemma LastIndexAt(s: string, c: char, i: nat)
    requires i < |s| && s[i] == c && c !in s[i + 1..]
    ensures LastIndex(s, c) == Some(i)
  {
    assert s[i] in s;
    var r := LastIndex(s, c).value;
    CharAfter(s, c, i, r);
    CharAfter(s, c, r, i);
  }

  /** Digits make a proper element. */
  lemma DigitsProper(s: string)
    requires |s| >= 1 && AllDigits(s)
    ensures Proper(s)
  {
    assert IsDigit(s[0]);
    forall k | 0 <= k < |s| ensures s[k] != '/' {
      assert IsDigit(s[k]);
    }
  }

  /** A remote media path uploads as its `dd_{id}.{ext}` file name into its `yyyy/mm/` directory. */
  lemma RemotePathSplit(m: Media)
    requires ValidDate(m.date) && '/' !in m.fileExt
    ensures Dir(RemotePath(m)) + "/" == DateLayout(m.date)[..8]
    ensures Base(RemotePath(m)) == RemotePath(m)[8..]
  {
    var d := DateLayout(m.date);
    DateLayoutParses(m.date);
    LayoutSplit(d);
    var name := RemoteName(m);
    var dirs := [d[..4], d[5..7]];
    DirBase(dirs, name);
  }

  /** The file name part of a remote path: the day, the id and the extension. */
  function RemoteName(m: Media): (name: string)
    requires ValidDate(m.date) && '/' !in m.fileExt
    ensures name != "" && '/' !in name
    ensures RemotePath(m) == DateLayout(m.date)[..8] + name
  {
    var d := DateLayout(m.date);
    DateLayoutParses(m.date);
    LayoutSplit(d);
    PathParts(m);
    var digits, ext := Decimal(m.id), "." + m.fileExt;
    Associate(d, "_", digits);
    Associate(d + "_", digits, ext);
    Associate(d, "_", digits + ext);
    assert '/' !in digits;
    assert d == d[..8] + d[8..];
    Associate(d[..8], d[8..], "_" + (digits + ext));
    d[8..] + ("_" + (digits + ext))
  }

  /** A "yyyy/mm/dd" layout is two proper directories and a slash-free day. */
  lemma LayoutSplit(d: string)
    requires |d| == 10 && d[4] == '/' && d[7] == '/'
    requires AllDigits(d[..4]) && AllDigits(d[5..7]) && AllDigits(d[8..])
    ensures AllProper([d[..4], d[5..7]])
    ensures Join([d[..4], d[5..7]], "/") + "/" == d[..8]
    ensures '/' !in d[8..]
  {
    DigitsProper(d[..4]);
    DigitsProper(d[5..7]);
    assert '/' !in d[8..] by {
      forall k | 0 <= k < |d[8..]| ensures d[8..][k] != '/' {
        assert IsDigit(d[8..][k]);
      }
    }
    assert Join([d[..4], d[5..7]], "/") == d[..4] + "/" + d[5..7];
  }

  // ---------------------------------------------------------------------
  // Header pass-through
  // ---------------------------------------------------------------------

  /** Every value of one header, paired with its name, in order. */
  function Pairs(key: string, values: seq<string>): (ps: seq<(string, string)>)
    ensures |ps| == |values| && forall i :: 0 <= i < |values| ==> ps[i] == (key, values[i])
  {
    seq(|values|, i requires 0 <= i < |values| => (key, values[i]))
  }

  /** All header values, header by header: what adding each value one at a time produces. */
  function Flatten(headers: seq<(string, seq<string>)>): seq<(string, string)> {
    if headers == [] then [] else Pairs(headers[0].0, headers[0].1) + Flatten(headers[1..])
  }

  /** A pair is passed on exactly when it is one of the caller's header values. */
  lemma {:induction false} FlattenMembers(headers: seq<(string, seq<string>)>, key: string, value: string)
    ensures (key, value) in Flatten(headers) <==>
      exists i :: 0 <= i < |headers| && headers[i].0 == key && value in headers[i].1
    decreases |headers|
  {
    if headers != [] {
      FlattenMembers(headers[1..], key, value);
      if (key, value) in Pairs(headers[0].0, headers[0].1) {
        var j :| 0 <= j < |headers[0].1| && Pairs(headers[0].0, headers[0].1)[j] == (key, value);
        assert headers[0].1[j] == value;
      }
      if exists i :: 0 <= i < |headers| && headers[i].0 == key && value in headers[i].1 {
        var i :| 0 <= i < |headers| && headers[i].0 == key && value in headers[i].1;
        if i > 0 {
          assert headers[1..][i - 1] == headers[i];
        } else {
          var j :| 0 <= j < |headers[0].1| && headers[0].1[j] == value;
          assert Pairs(headers[0].0, headers[0].1)[j] == (key, value);
        }
      }
      forall i | 1 <= i < |headers| ensures headers[1..][i - 1] == headers[i] {
      }
    }
  }

  /** The nested copy loop: for each header, add each of its values to the new request. */
  method PassThrough(headers: seq<(string, seq<string>)>) returns (out: seq<(string, string)>)
    ensures out == Flatten(headers)
  {
    out := [];
    var i := 0;
    while i < |headers|
      invariant 0 <= i <= |headers|
      invariant out + Flatten(headers[i..]) == Flatten(headers)
    {
      assert headers[i..][1..] == headers[i + 1..];
      var key, values := headers[i].0, headers[i].1;
      ghost var start := out;
      var j := 0;
      while j < |values|
        invariant 0 <= j <= |values|
        invariant out == start + Pairs(key, values[..j])
      {
        assert Pairs(key, values[..j + 1]) == Pairs(key, values[..j]) + [(key, values[j])];
        out := out + [(key, values[j])];
        j := j + 1;
      }
      assert values[..j] == values;
      i := i + 1;
    }
    assert headers[i..] == [];
  }

  // ---------------------------------------------------------------------
  // The exchanges
  // ---------------------------------------------------------------------

  function Authorization(token: string): (string, string) {
    ("Authorization", "Token " + token)
  }

  function TokenRequest(cfg: Config): Request {
    Request("POST", AuthUrl(cfg), [("Content-Type", "application/x-www-form-urlencoded")], FormBody(AuthForm(cfg)))
  }

  /** Sends a request that must be answered with 200. */
  function Exchange(net: Net, req: Request, step: Step): Result<Response, StorageError> {
    match Deliver(net, req)
    case None => Err(Transport(step))
    case Some(resp) => if resp.status != StatusOK then Err(BadStatus(step, resp.status)) else Ok(resp)
  }

  /** Decodes a body into an empty string variable: a JSON string is taken, null leaves it empty, anything else fails. */
  function DecodeString(resp: Response, step: Step): (r: Result<string, StorageError>)
    ensures r.Ok? <==> resp.body.JsonString? || resp.body.JsonNull?
    ensures r.Ok? ==> r.value == if resp.body.JsonString? then resp.body.s else ""
    ensures r.Err? ==> r.error == BadBody(step)
  {
    match resp.body
    case JsonString(s) => Ok(s)
    case JsonNull => Ok("")
    case _ => Err(BadBody(step))
  }

  /**
   * The token step: nothing when a token is cached, otherwise one request
   * whose decoded token is stored on success; a null body decodes without
   * error and leaves the token empty.
   */
  function AuthTrace(cfg: Config, net: Net, token: string): (t: Trace<()>)
    ensures |t.sent| <= 1
    ensures t.token == token || (token == "" && t.result.Ok?)
  {
    if token != "" then Trace(token, [], Ok(()))
    else
      var req := TokenRequest(cfg);
      match Exchange(net, req, AuthToken)
      case Err(e) => Trace(token, [req], Err(e))
      case Ok(resp) =>
        match resp.body
        case TokenObject(t) => Trace(t, [req], Ok(()))
        case JsonNull => Trace(token, [req], Ok(()))
        case _ => Trace(token, [req], Err(BadBody(AuthToken)))
  }

  /** When the token step fails, every operation stops with its error. */
  function AfterAuth<T>(a: Trace<()>, rest: Trace<T>): Trace<T> {
    if a.result.Err? then Trace(a.token, a.sent, Err(a.result.error))
    else Trace(rest.token, a.sent + rest.sent, rest.result)
  }

  function UploadLinkRequest(cfg: Config, token: string, parentDir: string): Request {
    Request("GET", UploadLinkUrl(cfg, parentDir), [Authorization(token)], NoBody)
  }

  /** The form fields after the file: the parent directory, the relative path when it is not empty, and replace. */
  function UploadFields(relativePath: string): seq<(string, string)> {
    [("parent_dir", "/")] + (if relativePath != "" then [("relative_path", relativePath)] else []) + [("replace", "1")]
  }

  function UploadRequest(url: string, token: string, data: Bytes, filePath: string): Request {
    Request("POST", url, [Authorization(token), ("Content-Type", "multipart/form-data")],
      Multipart(Base(filePath), data, UploadFields(Dir(filePath) + "/")))
  }

  /** Uploading once the token is there: fetch the upload link for "/", then post the file to it. */
  function UploadSteps(cfg: Config, net: Net, token: string, data: Bytes, filePath: string): Trace<()> {
    var linkReq := UploadLinkRequest(cfg, token, "/");
    match Exchange(net, linkReq, UploadLink)
    case Err(e) => Trace(token, [linkReq], Err(e))
    case Ok(resp) =>
      match DecodeString(resp, UploadLink)
      case Err(e) => Trace(token, [linkReq], Err(e))
      case Ok(url) =>
        var up := UploadRequest(url, token, data, filePath);
        match Exchange(net, up, UploadFile)
        case Err(e) => Trace(token, [linkReq, up], Err(e))
        case Ok(_) => Trace(token, [linkReq, up], Ok(()))
  }

  function UploadTrace(cfg: Config, net: Net, token: string, data: Bytes, filePath: string): (t: Trace<()>)
    ensures t.token == AuthTrace(cfg, net, token).token
    ensures t.result.Ok? ==>
      |t.sent| == |AuthTrace(cfg, net, token).sent| + 2
      && t.sent[|t.sent| - 1].body == Multipart(Base(filePath), data, UploadFields(Dir(filePath) + "/"))
  {
    var a := AuthTrace(cfg, net, token);
    AfterAuth(a, UploadSteps(cfg, net, a.token, data, filePath))
  }

  function LookupRequest(cfg: Config, token: string, path: string): Request {
    Request("GET", FileUrl(cfg, path), [Authorization(token)], NoBody)
  }

  /** Streaming once the token is there: look the download link up, then request it with the caller's headers only. */
  function StreamSteps(cfg: Config, net: Net, token: string, path: string, headers: seq<(string, seq<string>)>): Trace<Response> {
    var lookup := LookupRequest(cfg, token, path);
    match Exchange(net, lookup, FileLink)
    case Err(e) => Trace(token, [lookup], Err(e))
    case Ok(resp) =>
      match DecodeString(resp, FileLink)
      case Err(e) => Trace(token, [lookup], Err(e))
      case Ok(realUrl) =>
        var fileReq := Request("GET", realUrl, Flatten(headers), NoBody);
        match Deliver(net, fileReq)
        case None => Trace(token, [lookup, fileReq], Err(Transport(Stream)))
        case Some(r) =>
          if r.status != StatusOK && r.status != StatusPartialContent then
            Trace(token, [lookup, fileReq], Err(BadStatus(Stream, r.status)))
          else Trace(token, [lookup, fileReq], Ok(r))
  }

  function StreamTrace(cfg: Config, net: Net, token: string, path: string, headers: seq<(string, seq<string>)>): (t: Trace<Response>)
    ensures t.token == AuthTrace(cfg, net, token).token
    ensures t.result.Ok? ==> t.result.value.status == StatusOK || t.result.value.status == StatusPartialContent
    ensures t.result.Ok? ==>
      |t.sent| == |AuthTrace(cfg, net, token).sent| + 2 && t.sent[|t.sent| - 1].headers == Flatten(headers)
  {
    var a := AuthTrace(cfg, net, token);
    AfterAuth(a, StreamSteps(cfg, net, a.token, path, headers))
  }

  /** A buffered download: the stream without extra headers, read to the end, with its Content-Type. */
  function DownloadTrace(cfg: Config, net: Net, token: string, path: string): Trace<(Bytes, string)> {
    var t := StreamTrace(cfg, net, token, path, []);
    match t.result
    case Err(e) => Trace(t.token, t.sent, Err(e))
    case Ok(r) =>
      if !r.readable then Trace(t.token, t.sent, Err(Transport(ReadBody)))
      else Trace(t.token, t.sent, Ok((r.data, r.contentType)))
  }

  function DeleteRequest(cfg: Config, token: string, path: string): Request {
    Request("DELETE", FileUrl(cfg, path), [Authorization(token), ("Accept", "application/json; charset=utf-8; indent=4")], NoBody)
  }

  /** The reply check: a body that decodes into a string must decode to "success"; one that does not decode is not checked. */
  function DeleteReply(resp: Response): (r: Result<(), StorageError>)
    ensures r.Ok? <==> !resp.body.JsonNull? && (resp.body.JsonString? ==> resp.body.s == "success")
    ensures r.Err? ==> r.error == UnexpectedReply(if resp.body.JsonString? then resp.body.s else "")
  {
    match DecodeString(resp, DeleteFile)
    case Ok(reply) => if reply == "success" then Ok(()) else Err(UnexpectedReply(reply))
    case Err(_) => Ok(())
  }

  function DeleteSteps(cfg: Config, net: Net, token: string, path: string): Trace<()> {
    var req := DeleteRequest(cfg, token, path);
    match Exchange(net, req, DeleteFile)
    case Err(e) => Trace(token, [req], Err(e))
    case Ok(resp) => Trace(token, [req], DeleteReply(resp))
  }

  function DeleteTrace(cfg: Config, net: Net, token: string, path: string): (t: Trace<()>)
    ensures t.token == AuthTrace(cfg, net, token).token
    ensures t.result.Ok? ==> t.sent == AuthTrace(cfg, net, token).sent + [DeleteRequest(cfg, AuthTrace(cfg, net, token).token, path)]
    ensures t.result.Err? && t.result.error.UnexpectedReply? ==> t.result.error.reply != "success"
  {
    var a := AuthTrace(cfg, net, token);
    AfterAuth(a, DeleteSteps(cfg, net, a.token, path))
  }

  // ---------------------------------------------------------------------
  // What the traces promise
  // ---------------------------------------------------------------------

  /** A cached token means no request and success; otherwise exactly the token request is sent. */
  lemma AuthCachedOrOneRequest(cfg: Config, net: Net, token: string)
    ensures token != "" ==> AuthTrace(cfg, net, token) == Trace(token, [], Ok(()))
    ensures token == "" ==> AuthTrace(cfg, net, token).sent == [TokenRequest(cfg)]
  {
  }

  /**
   * The token changes only after a 200 answer whose body decodes as an
   * object, and then to the decoded token; a 200 answer with a null body
   * also succeeds and leaves the token empty; on every error it stays as it
   * was.
   */
  lemma AuthStoresOnSuccess(cfg: Config, net: Net, token: string)
    ensures var t := AuthTrace(cfg, net, token);
      t.result.Err? ==> t.token == token
    ensures var t := AuthTrace(cfg, net, token);
      token == "" ==>
        (t.result.Ok? <==>
          net.respond(TokenRequest(cfg)).Some? && net.respond(TokenRequest(cfg)).value.status == 200
          && (net.respond(TokenRequest(cfg)).value.body.TokenObject? || net.respond(TokenRequest(cfg)).value.body.JsonNull?))
    ensures var t := AuthTrace(cfg, net, token);
      t.result.Ok? && token == "" ==>
        t.token == (if net.respond(TokenRequest(cfg)).value.body.TokenObject? then net.respond(TokenRequest(cfg)).value.body.token else "")
  {
  }

  /**
   * A null token body: the token step succeeds, the token stays empty, and
   * the next request an upload sends carries the bare "Token " header.
   */
  lemma NullTokenBody(cfg: Config, net: Net, data: Bytes, filePath: string)
    requires net.respond(TokenRequest(cfg)).Some?
    requires net.respond(TokenRequest(cfg)).value.status == 200 && net.respond(TokenRequest(cfg)).value.body == JsonNull
    ensures AuthTrace(cfg, net, "") == Trace("", [TokenRequest(cfg)], Ok(()))
    ensures var t := UploadTrace(cfg, net, "", data, filePath);
      t.token == "" && t.sent[1] == UploadLinkRequest(cfg, "", "/") && t.sent[1].headers == [("Authorization", "Token ")]
  {
    assert "Token " + "" == "Token ";
  }

  /** Once a token is cached, no operation replaces or clears it. */
  lemma TokenNeverInvalidated(cfg: Config, net: Net, token: string, data: Bytes, path: string, headers: seq<(string, seq<string>)>)
    requires token != ""
    ensures UploadTrace(cfg, net, token, data, path).token == token
    ensures StreamTrace(cfg, net, token, path, headers).token == token
    ensures DownloadTrace(cfg, net, token, path).token == token
    ensures DeleteTrace(cfg, net, token, path).token == token
  {
  }

  /** The relative path always ends in '/', so it is never empty and the form always has the three fields. */
  lemma RelativePathAlwaysWritten(filePath: string)
    ensures UploadFields(Dir(filePath) + "/") == [("parent_dir", "/"), ("relative_path", Dir(filePath) + "/"), ("replace", "1")]
  {
    assert Dir(filePath) + "/" != "";
  }

  /**
   * An upload with a cached token sends the link request and then, if that
   * answered 200 with a URL, the file to that URL; it succeeds exactly when
   * both answers are 200.
   */
  lemma UploadNeedsTwo200s(cfg: Config, net: Net, token: string, data: Bytes, filePath: string)
    requires token != ""
    ensures var t := UploadTrace(cfg, net, token, data, filePath);
      var link := net.respond(UploadLinkRequest(cfg, token, "/"));
      t.result.Ok? <==>
        link.Some? && link.value.status == 200 && DecodeString(link.value, UploadLink).Ok?
        && Deliver(net, UploadRequest(DecodeString(link.value, UploadLink).value, token, data, filePath)).Some?
        && Deliver(net, UploadRequest(DecodeString(link.value, UploadLink).value, token, data, filePath)).value.status == 200
    ensures var t := UploadTrace(cfg, net, token, data, filePath);
      t.sent[0] == UploadLinkRequest(cfg, token, "/") && t.sent[0].url == UploadLinkUrl(cfg, "/")
    ensures var t := UploadTrace(cfg, net, token, data, filePath);
      |t.sent| == 2 ==> t.sent[1].body == Multipart(Base(filePath), data,
        [("parent_dir", "/"), ("relative_path", Dir(filePath) + "/"), ("replace", "1")])
  {
    RelativePathAlwaysWritten(filePath);
  }

  /** A null upload link decodes as the empty URL, so the file is never delivered and the upload fails. */
  lemma NullUploadLink(cfg: Config, net: Net, token: string, data: Bytes, filePath: string)
    requires token != ""
    requires net.respond(UploadLinkRequest(cfg, token, "/")).Some?
    requires net.respond(UploadLinkRequest(cfg, token, "/")).value.status == 200
    requires net.respond(UploadLinkRequest(cfg, token, "/")).value.body == JsonNull
    ensures var t := UploadTrace(cfg, net, token, data, filePath);
      |t.sent| == 2 && t.sent[1].url == "" && t.result == Err(Transport(UploadFile))
  {
  }

  /**
   * With a cached token the stream looks the file up at its file URL and
   * then requests the decoded link carrying exactly the caller's header
   * values; the answer is accepted exactly when it is 200 or 206.
   */
  lemma StreamAcceptance(cfg: Config, net: Net, token: string, path: string, headers: seq<(string, seq<string>)>)
    requires token != ""
    ensures var t := StreamTrace(cfg, net, token, path, headers);
      t.sent[0] == LookupRequest(cfg, token, path) && t.sent[0].url == FileUrl(cfg, path)
      && (|t.sent| == 2 ==>
            t.sent[1].headers == Flatten(headers) && t.sent[1].url == DecodeString(net.respond(t.sent[0]).value, FileLink).value)
      && (t.result.Ok? <==>
            (|t.sent| == 2 && Deliver(net, t.sent[1]).Some? && Deliver(net, t.sent[1]).value.status in {200, 206}))
      && (t.result.Ok? ==> t.result.value == Deliver(net, t.sent[1]).value)
  {
  }

  /** A null download link decodes as the empty URL, so the stream request is never delivered. */
  lemma NullStreamLink(cfg: Config, net: Net, token: string, path: string, headers: seq<(string, seq<string>)>)
    requires token != ""
    requires net.respond(LookupRequest(cfg, token, path)).Some?
    requires net.respond(LookupRequest(cfg, token, path)).value.status == 200
    requires net.respond(LookupRequest(cfg, token, path)).value.body == JsonNull
    ensures var t := StreamTrace(cfg, net, token, path, headers);
      |t.sent| == 2 && t.sent[1].url == "" && t.result == Err(Transport(Stream))
  {
  }

  /** A download is the whole body of an accepted stream together with its Content-Type header. */
  lemma DownloadIsStreamBody(cfg: Config, net: Net, token: string, path: string)
    ensures var d := DownloadTrace(cfg, net, token, path); var t := StreamTrace(cfg, net, token, path, []);
      d.sent == t.sent && d.token == t.token
      && (d.result.Ok? <==> t.result.Ok? && t.result.value.readable)
      && (d.result.Ok? ==> d.result.value == (t.result.value.data, t.result.value.contentType))
  {
  }

  /**
   * A delete with a cached token succeeds exactly when the answer is 200 and
   * its body is "success" or does not decode into a string; a null body
   * decodes as the empty reply and is rejected.
   */
  lemma DeleteEnvelope(cfg: Config, net: Net, token: string, path: string)
    requires token != ""
    ensures var resp := net.respond(DeleteRequest(cfg, token, path));
      DeleteTrace(cfg, net, token, path).result.Ok? <==>
        resp.Some? && resp.value.status == 200 && !resp.value.body.JsonNull?
        && (resp.value.body.JsonString? ==> resp.value.body.s == "success")
    ensures var resp := net.respond(DeleteRequest(cfg, token, path));
      resp.Some? && resp.value.status == 200 && resp.value.body == Undecodable ==>
        DeleteTrace(cfg, net, token, path).result.Ok?
    ensures var resp := net.respond(DeleteRequest(cfg, token, path));
      resp.Some? && resp.value.status == 200 && resp.value.body == JsonNull ==>
        DeleteTrace(cfg, net, token, path).result == Err(UnexpectedReply(""))
  {
  }

  // ---------------------------------------------------------------------
  // The client
  // ---------------------------------------------------------------------

  /** The client: its configuration, the network, the cached token and the requests sent so far. */
  class Client {
    const cfg: Config
    const net: Net
    var token: string
    var sent: seq<Request>

    constructor(cfg: Config, net: Net)
      ensures this.cfg == cfg && this.net == net && token == "" && sent == []
    {
      this.cfg := cfg;
      this.net := net;
      token := "";
      sent := [];
    }

    method Send(req: Request) returns (resp: Option<Response>)
      modifies this
      ensures resp == Deliver(net, req) && sent == old(sent) + [req] && token == old(token)
    {
      sent := sent + [req];
      if req.url == "" {
        resp := None;
      } else {
        resp := net.respond(req);
      }
    }

    method Auth() returns (r: Result<(), StorageError>)
      modifies this
      ensures var t := AuthTrace(cfg, net, old(token));
        token == t.token && sent == old(sent) + t.sent && r == t.result
    {
      if token != "" {
        return Ok(());
      }
      var resp := Send(TokenRequest(cfg));
      if resp.None? {
        return Err(Transport(AuthToken));
      }
      if resp.value.status != StatusOK {
        return Err(BadStatus(AuthToken, resp.value.status));
      }
      match resp.value.body {
        case TokenObject(t) =>
          token := t;
        case JsonNull =>
        case _ =>
          return Err(BadBody(AuthToken));
      }
      r := Ok(());
    }

    /** The link step of an upload. */
    method GetUploadUrl(parentDir: string) returns (r: Result<string, StorageError>)
      modifies this
      ensures token == old(token) && sent == old(sent) + [UploadLinkRequest(cfg, token, parentDir)]
      ensures var x := Exchange(net, UploadLinkRequest(cfg, token, parentDir), UploadLink);
        r == if x.Err? then Err(x.error) else DecodeString(x.value, UploadLink)
    {
      var resp := Send(UploadLinkRequest(cfg, token, parentDir));
      if resp.None? {
        return Err(Transport(UploadLink));
      }
      if resp.value.status != StatusOK {
        return Err(BadStatus(UploadLink, resp.value.status));
      }
      var uploadUrl := DecodeString(resp.value, UploadLink);
      if uploadUrl.Err? {
        return Err(uploadUrl.error);
      }
      r := Ok(uploadUrl.value);
    }

    method Upload(data: Bytes, filePath: string) returns (r: Result<(), StorageError>)
      modifies this
      ensures var t := UploadTrace(cfg, net, old(token), data, filePath);
        token == t.token && sent == old(sent) + t.sent && r == t.result
    {
      var a := Auth();
      if a.Err? {
        return Err(a.error);
      }
      ghost var afterAuth := sent;
      var parentDir := "/";
      var relativePath := Dir(filePath) + "/";
      var fileName := Base(filePath);
      var url := GetUploadUrl(parentDir);
      if url.Err? {
        return Err(url.error);
      }
      var fields := [("parent_dir", parentDir)];
      if relativePath != "" {
        fields := fields + [("relative_path", relativePath)];
      }
      fields := fields + [("replace", "1")];
      var req := Request("POST", url.value, [Authorization(token), ("Content-Type", "multipart/form-data")],
        Multipart(fileName, data, fields));
      assert req == UploadRequest(url.value, token, data, filePath);
      var resp := Send(req);
      if resp.None? {
        return Err(Transport(UploadFile));
      }
      if resp.value.status != StatusOK {
        return Err(BadStatus(UploadFile, resp.value.status));
      }
      r := Ok(());
    }

    method DownloadStream(path: string, headers: seq<(string, seq<string>)>) returns (r: Result<Response, StorageError>)
      modifies this
      ensures var t := StreamTrace(cfg, net, old(token), path, headers);
        token == t.token && sent == old(sent) + t.sent && r == t.result
    {
      var a := Auth();
      if a.Err? {
        return Err(a.error);
      }
      var resp := Send(LookupRequest(cfg, token, path));
      if resp.None? {
        return Err(Transport(FileLink));
      }
      if resp.value.status != StatusOK {
        return Err(BadStatus(FileLink, resp.value.status));
      }
      var decoded := DecodeString(resp.value, FileLink);
      if decoded.Err? {
        return Err(decoded.error);
      }
      var realUrl := decoded.value;
      var passed := PassThrough(headers);
      var fileResp := Send(Request("GET", realUrl, passed, NoBody));
      if fileResp.None? {
        return Err(Transport(Stream));
      }
      if fileResp.value.status != StatusOK && fileResp.value.status != StatusPartialContent {
        return Err(BadStatus(Stream, fileResp.value.status));
      }
      r := Ok(fileResp.value);
    }

    method Download(path: string) returns (r: Result<(Bytes, string), StorageError>)
      modifies this
      ensures var t := DownloadTrace(cfg, net, old(token), path);
        token == t.token && sent == old(sent) + t.sent && r == t.result
    {
      var resp := DownloadStream(path, []);
      if resp.Err? {
        return Err(resp.error);
      }
      if !resp.value.readable {
        return Err(Transport(ReadBody));
      }
      r := Ok((resp.value.data, resp.value.contentType));
    }

    method Delete(filePath: string) returns (r: Result<(), StorageError>)
      modifies this
      ensures var t := DeleteTrace(cfg, net, old(token), filePath);
        token == t.token && sent == old(sent) + t.sent && r == t.result
    {
      var a := Auth();
      if a.Err? {
        return Err(a.error);
      }
      var resp := Send(DeleteRequest(cfg, token, filePath));
      if resp.None? {
        return Err(Transport(DeleteFile));
      }
      if resp.value.status != StatusOK {
        return Err(BadStatus(DeleteFile, resp.value.status));
      }
      var reply := DecodeString(resp.value, DeleteFile);
      if reply.Ok? && reply.value != "success" {
        return Err(UnexpectedReply(reply.value));
      }
      r := Ok(());
    }
  }
}
