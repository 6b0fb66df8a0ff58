/** The folder walk of internal/sync/sync.go: which files it reaches, and along which paths. */
module DriveWalk {
  import opened Wrappers
  import opened DocTables

  datatype Page = Page(files: seq<File>, next: string)

  /** A failed call is absent. list takes a folder and a page token; the first page has the empty token. */
  datatype Drive = Drive(list: (string, string) -> Option<Page>, get: string -> Option<File>,
      download: string -> Exported)

  /** How far a walk can go from a folder, and how many pages can follow a page. */
  datatype Measure = Measure(height: string -> nat, left: (string, string) -> nat)

  /** The listings are finite and no folder contains itself, directly or further down. */
  ghost predicate Bounded(d: Drive, m: Measure) {
    forall folder, token ::
      d.list(folder, token).Some? ==>
        var page := d.list(folder, token).value;
        && (page.next != "" ==> m.left(folder, page.next) < m.left(folder, token))
        && forall i :: 0 <= i < |page.files| && page.files[i].mime == FolderMime ==>
                m.height(page.files[i].id) < m.height(folder)
  }

  // ---------- the walk ----------

  /** One step down: the page of a folder, by its token, and the place on the page. */
  datatype Place = Place(token: string, index: nat)

  datatype Find = Find(path: seq<Place>, file: File)

  function Under(place: Place, finds: seq<Find>): (r: seq<Find>)
    ensures |r| == |finds|
    ensures forall i :: 0 <= i < |finds| ==> r[i] == Find([place] + finds[i].path, finds[i].file)
  {
    seq(|finds|, i requires 0 <= i < |finds| => Find([place] + finds[i].path, finds[i].file))
  }

  /** The docs that walking from a page of a folder on comes to, in order, each with its path. */
  function WalkFrom(d: Drive, ghost m: Measure, folder: string, token: string): seq<Find>
    requires Bounded(d, m)
    decreases m.height(folder), m.left(folder, token) + 1, 0
  {
    match d.list(folder, token)
    case None => []
    case Some(page) =>
      var here := WalkPage(d, m, folder, token, page, |page.files|);
      if page.next == "" then here else here + WalkFrom(d, m, folder, page.next)
  }

  /** The docs under the first n files of a page. */
  function WalkPage(d: Drive, ghost m: Measure, folder: string, token: string, page: Page, n: nat): seq<Find>
    requires Bounded(d, m) && d.list(folder, token) == Some(page) && n <= |page.files|
    decreases m.height(folder), m.left(folder, token), n
  {
    if n == 0 then [] else
      WalkPage(d, m, folder, token, page, n - 1) + Below(d, m, folder, token, page, n - 1)
  }

  function Below(d: Drive, ghost m: Measure, folder: string, token: string, page: Page, i: nat): seq<Find>
    requires Bounded(d, m) && d.list(folder, token) == Some(page) && i < |page.files|
    decreases m.height(folder), m.left(folder, token), i
  {
    var f := page.files[i];
    match f.mime
    case FolderMime => Under(Place(token, i), WalkFrom(d, m, f.id, ""))
    case DocMime => [Find([Place(token, i)], f)]
    case OtherMime => []
  }

  // ---------- reachability, independent of any walk ----------

  /** The token of the page n pages after the one with this token. */
  function PageToken(d: Drive, folder: string, token: string, n: nat): Option<string>
    decreases n
  {
    if n == 0 then Some(token) else
      match d.list(folder, token)
      case None => None
      case Some(page) => if page.next == "" then None else PageToken(d, folder, page.next, n - 1)
  }

  ghost predicate PageFollows(d: Drive, folder: string, token: string, later: string) {
    exists n: nat :: PageToken(d, folder, token, n) == Some(later)
  }

  /** A path that starts at file f of some page leads to the doc. */
  ghost predicate EndsIn(d: Drive, f: File, path: seq<Place>, doc: File)
    decreases |path|, 0
  {
    if |path| == 1 then f.mime == DocMime && doc == f
    else
      && |path| > 1 && f.mime == FolderMime
      && PageFollows(d, f.id, "", path[1].token) && LeadsTo(d, f.id, path[1..], doc)
  }

  /** From a folder, the path leads over listed pages and folders to the doc. */
  ghost predicate LeadsTo(d: Drive, folder: string, path: seq<Place>, doc: File)
    decreases |path|, 1
  {
    && path != []
    && d.list(folder, path[0].token).Some?
    && var files := d.list(folder, path[0].token).value.files;
       path[0].index < |files| && EndsIn(d, files[path[0].index], path, doc)
  }

  ghost predicate Reachable(d: Drive, folder: string, path: seq<Place>, doc: File) {
    path != [] && PageFollows(d, folder, "", path[0].token) && LeadsTo(d, folder, path, doc)
  }

  // ---------- the walk finds what is reachable ----------

  lemma PageFollowsStep(d: Drive, folder: string, token: string, later: string)
    requires d.list(folder, token).Some?
    ensures var next := d.list(folder, token).value.next;
            PageFollows(d, folder, token, later) <==>
                    later == token || (next != "" && PageFollows(d, folder, next, later))
  {
    var next := d.list(folder, token).value.next;
    assert PageToken(d, folder, token, 0) == Some(token);
    if PageFollows(d, folder, token, later) && later != token {
      var n: nat :| PageToken(d, folder, token, n) == Some(later);
      assert PageToken(d, folder, next, n - 1) == Some(later);
    }
    if next != "" && PageFollows(d, folder, next, later) {
      var n: nat :| PageToken(d, folder, next, n) == Some(later);
      assert PageToken(d, folder, token, n + 1) == Some(later);
    }
  }

  lemma {:induction false} WalkFromFinds(d: Drive, m: Measure, folder: string, token: string, x: Find)
    requires Bounded(d, m)
    ensures x in WalkFrom(d, m, folder, token) <==>
            x.path != [] && PageFollows(d, folder, token, x.path[0].token) && LeadsTo(d, folder, x.path, x.file)
    decreases m.height(folder), m.left(folder, token) + 1, 0
  {
    if d.list(folder, token).Some? {
      var page := d.list(folder, token).value;
      PageFollowsStep(d, folder, token, if x.path == [] then "" else x.path[0].token);
      WalkPageFinds(d, m, folder, token, page, |page.files|, x);
      if page.next != "" {
        WalkFromFinds(d, m, folder, page.next, x);
      }
    } else if x.path != [] && PageFollows(d, folder, token, x.path[0].token) {
      var n: nat :| PageToken(d, folder, token, n) == Some(x.path[0].token);
    }
  }

  lemma {:induction false} WalkPageFinds(d: Drive, m: Measure, folder: string, token: string, page: Page, n: nat,
      x: Find)
    requires Bounded(d, m) && d.list(folder, token) == Some(page) && n <= |page.files|
    ensures x in WalkPage(d, m, folder, token, page, n) <==>
            x.path != [] && x.path[0].token == token && x.path[0].index < n
                && EndsIn(d, page.files[x.path[0].index], x.path, x.file)
    decreases m.height(folder), m.left(folder, token), n
  {
    if n > 0 {
      WalkPageFinds(d, m, folder, token, page, n - 1, x);
      BelowFinds(d, m, folder, token, page, n - 1, x);
    }
  }

  lemma {:induction false} BelowFinds(d: Drive, m: Measure, folder: string, token: string, page: Page, i: nat, x: Find)
    requires Bounded(d, m) && d.list(folder, token) == Some(page) && i < |page.files|
    ensures x in Below(d, m, folder, token, page, i) <==>
            x.path != [] && x.path[0] == Place(token, i) && EndsIn(d, page.files[i], x.path, x.file)
    decreases m.height(folder), m.left(folder, token), i
  {
    var f := page.files[i];
    if f.mime == FolderMime {
      var finds := WalkFrom(d, m, f.id, "");
      UnderFinds(Place(token, i), finds, x);
      if x.path != [] {
        WalkFromFinds(d, m, f.id, "", Find(x.path[1..], x.file));
        if |x.path| == 1 {
          assert x.path[1..] == [];
        }
      }
    } else if |x.path| == 1 {
      assert x.path == [x.path[0]];
    }
  }

  lemma UnderFinds(place: Place, finds: seq<Find>, x: Find)
    ensures x in Under(place, finds) <==> x.path != [] && x.path[0] == place && Find(x.path[1..], x.file) in finds
  {
    var under := Under(place, finds);
    if x in under {
      var i :| 0 <= i < |under| && under[i] == x;
      assert x.path[1..] == finds[i].path;
    }
    if x.path != [] && x.path[0] == place && Find(x.path[1..], x.file) in finds {
      var i :| 0 <= i < |finds| && finds[i] == Find(x.path[1..], x.file);
      assert under[i].path == [place] + x.path[1..] == x.path;
      assert under[i] == x;
    }
  }

  // ---------- and finds it once ----------

  ghost predicate OncePerPath(finds: seq<Find>) {
    forall i, j :: 0 <= i < j < |finds| ==> finds[i].path != finds[j].path
  }

  lemma NothingOnce()
    ensures OncePerPath([])
  {
  }

  lemma JoinOnce(a: seq<Find>, b: seq<Find>)
    requires OncePerPath(a) && OncePerPath(b)
    requires forall x, y :: x in a && y in b ==> x.path != y.path
    ensures OncePerPath(a + b)
  {
    forall i, j | 0 <= i < j < |a + b|
      ensures (a + b)[i].path != (a + b)[j].path
    {
      if i < |a| && j >= |a| {
        assert a[i] in a && b[j - |a|] in b;
      }
    }
  }

  lemma UnderOnce(place: Place, finds: seq<Find>)
    requires OncePerPath(finds)
    ensures OncePerPath(Under(place, finds))
  {
    var under := Under(place, finds);
    forall i, j | 0 <= i < j < |under|
      ensures under[i].path != under[j].path
    {
      assert under[i].path[1..] == finds[i].path && under[j].path[1..] == finds[j].path;
    }
  }

  lemma {:induction false} LaterPagesLeaveLess(d: Drive, m: Measure, folder: string, token: string, n: nat)
    requires Bounded(d, m) && PageToken(d, folder, token, n).Some?
    ensures m.left(folder, PageToken(d, folder, token, n).value) <= m.left(folder, token)
    decreases n
  {
    if n > 0 {
      LaterPagesLeaveLess(d, m, folder, d.list(folder, token).value.next, n - 1);
    }
  }

  lemma {:induction false} WalkFromOnce(d: Drive, m: Measure, folder: string, token: string)
    requires Bounded(d, m)
    ensures OncePerPath(WalkFrom(d, m, folder, token))
    decreases m.height(folder), m.left(folder, token) + 1, 0
  {
    if d.list(folder, token).Some? {
      var page := d.list(folder, token).value;
      var here := WalkPage(d, m, folder, token, page, |page.files|);
      WalkPageOnce(d, m, folder, token, page, |page.files|);
      if page.next != "" {
        var later := WalkFrom(d, m, folder, page.next);
        WalkFromOnce(d, m, folder, page.next);
        forall x, y | x in here && y in later
          ensures x.path != y.path
        {
          WalkPageFinds(d, m, folder, token, page, |page.files|, x);
          WalkFromFinds(d, m, folder, page.next, y);
          var n: nat :| PageToken(d, folder, page.next, n) == Some(y.path[0].token);
          LaterPagesLeaveLess(d, m, folder, page.next, n);
        }
        JoinOnce(here, later);
      }
    }
  }

  lemma EarlierOnPage(d: Drive, m: Measure, folder: string, token: string, page: Page, i: nat, x: Find, y: Find)
    requires Bounded(d, m) && d.list(folder, token) == Some(page) && i < |page.files|
    requires x in WalkPage(d, m, folder, token, page, i) && y in Below(d, m, folder, token, page, i)
    ensures x.path != y.path
  {
    WalkPageFinds(d, m, folder, token, page, i, x);
    BelowFinds(d, m, folder, token, page, i, y);
  }

  lemma {:induction false} WalkPageOnce(d: Drive, m: Measure, folder: string, token: string, page: Page, n: nat)
    requires Bounded(d, m) && d.list(folder, token) == Some(page) && n <= |page.files|
    ensures OncePerPath(WalkPage(d, m, folder, token, page, n))
    decreases m.height(folder), m.left(folder, token), n
  {
    if n == 0 {
      NothingOnce();
    } else {
      var before, below := WalkPage(d, m, folder, token, page, n - 1), Below(d, m, folder, token, page, n - 1);
      hide Bounded, Below, OncePerPath;
      WalkPageOnce(d, m, folder, token, page, n - 1);
      BelowOnce(d, m, folder, token, page, n - 1);
      forall x, y | x in before && y in below
        ensures x.path != y.path
      {
        EarlierOnPage(d, m, folder, token, page, n - 1, x, y);
      }
      JoinOnce(before, below);
    }
  }

  lemma {:induction false} BelowOnce(d: Drive, m: Measure, folder: string, token: string, page: Page, i: nat)
    requires Bounded(d, m) && d.list(folder, token) == Some(page) && i < |page.files|
    ensures OncePerPath(Below(d, m, folder, token, page, i))
    decreases m.height(folder), m.left(folder, token), i
  {
    var f := page.files[i];
    if f.mime == FolderMime {
      WalkFromOnce(d, m, f.id, "");
      UnderOnce(Place(token, i), WalkFrom(d, m, f.id, ""));
    }
  }

  /** A walk comes to a doc along a path if and only if the path leads to it, and along each path once. */
  lemma WalkIsExact(d: Drive, m: Measure, folder: string)
    requires Bounded(d, m)
    ensures forall path, doc :: Find(path, doc) in WalkFrom(d, m, folder, "") <==> Reachable(d, folder, path, doc)
    ensures OncePerPath(WalkFrom(d, m, folder, ""))
  {
    forall path, doc
      ensures Find(path, doc) in WalkFrom(d, m, folder, "") <==> Reachable(d, folder, path, doc)
    {
      WalkFromFinds(d, m, folder, "", Find(path, doc));
    }
    WalkFromOnce(d, m, folder, "");
  }
}
