/** The breadcrumb trail shown under the header: "Início" followed by one
    crumb per non-empty segment of the current path. */
module Breadcrumbs {
  import opened Options
  import opened Text
  import opened Seqs

  /** One crumb after "Início": its text, the route its link goes to, and
      whether it is the current page (shown as text, not as a link). */
  datatype Crumb = Crumb(text: string, routeTo: string, isCurrent: bool)

  /** Display names for the known segments. */
  const Names: map<string, string> := map[
    "fornecedores" := "Fornecedores",
    "categorias" := "Categorias",
    "buscar" := "Busca",
    "entrar" := "Login",
    "cadastro" := "Cadastro",
    "dashboard" := "Dashboard",
    "como-funciona" := "Como Funciona",
    "planos" := "Planos",
    "chat" := "Chat",
    "admin" := "Administração",
    "usuarios" := "Usuários"
  ]

  function NonEmpty(x: string): bool {
    x != ""
  }

  /** `pathname.split('/').filter((x) => x)`. */
  function Segments(path: string): (r: seq<string>)
    ensures forall i :: 0 <= i < |r| ==> r[i] != "" && '/' !in r[i]
  {
    SplitPieces(path, '/');
    Filter(Split(path, '/'), NonEmpty)
  }

  /** The first letter upper-cased, the rest as written. */
  function Capitalize(seg: string): (r: string)
    requires seg != ""
    ensures |r| >= |seg| && r[|r| - (|seg| - 1)..] == seg[1..]
    ensures r[..|r| - (|seg| - 1)] == Upper(seg[0])
    ensures 'a' <= seg[0] <= 'z' ==> |r| == |seg| && r[0] == (seg[0] as int - 32) as char
    ensures !('a' <= seg[0] <= 'z') && (seg[0] as int) < 0xB5 ==> r == seg
  {
    Upper(seg[0]) + seg[1..]
  }

  /** The crumb text: the table's name for a known segment, otherwise the
      segment with its first letter upper-cased. */
  function Label(seg: string): (r: string)
    requires seg != ""
    ensures seg in Names ==> r == Names[seg]
    ensures seg !in Names ==> r == Capitalize(seg)
    ensures r != ""
  {
    if seg in Names then Names[seg] else Capitalize(seg)
  }

  /** `/${pathnames.slice(0, index + 1).join('/')}`. */
  function RouteTo(segs: seq<string>, index: nat): (r: string)
    requires index < |segs|
    ensures |r| >= 1 && r[0] == '/'
  {
    "/" + Join(segs[..index + 1], "/")
  }

  /** The crumbs for a path, or nothing at all for exactly "/". */
  function Crumbs(path: string): (r: Option<seq<Crumb>>)
    ensures r.None? <==> path == "/"
    ensures r.Some? ==> |r.value| == |Segments(path)|
    ensures r.Some? ==> forall i :: 0 <= i < |r.value| ==>
      (r.value[i].isCurrent <==> i == |r.value| - 1)
    ensures r.Some? ==> forall i :: 0 <= i < |r.value| ==>
      r.value[i].text == Label(Segments(path)[i]) && r.value[i].routeTo == RouteTo(Segments(path), i)
  {
    if path == "/" then None
    else
      var segs := Segments(path);
      Some(seq(|segs|, i requires 0 <= i < |segs| =>
        Crumb(Label(segs[i]), RouteTo(segs, i), i == |segs| - 1)))
  }

  /** Each crumb's route extends the previous crumb's route by "/" and its
      own segment, so every link leads to an ancestor of the current page. */
  lemma RoutesExtend(segs: seq<string>, i: nat)
    requires i + 1 < |segs|
    ensures RouteTo(segs, i + 1) == RouteTo(segs, i) + "/" + segs[i + 1]
  {
    assert segs[..i + 2] == segs[..i + 1] + [segs[i + 1]];
    JoinSnoc(segs[..i + 1], segs[i + 1], "/");
    assert "/" + (Join(segs[..i + 1], "/") + "/" + segs[i + 1]) == ("/" + Join(segs[..i + 1], "/") + "/") + segs[i + 1];
    assert "/" + (Join(segs[..i + 1], "/") + "/") == ("/" + Join(segs[..i + 1], "/")) + "/";
  }

  /** The last crumb's route is the path with empty segments dropped. */
  lemma LastRouteJoinsAll(path: string)
    requires path != "/" && Segments(path) != []
    ensures var segs := Segments(path);
      Crumbs(path).value[|segs| - 1].routeTo == "/" + Join(segs, "/")
  {
    var segs := Segments(path);
    assert segs[..|segs|] == segs;
  }

  /** Reading back the route of a list of proper segments gives the same
      segments: building a route and splitting it are inverse. */
  lemma SegmentsOfRoute(segs: seq<string>)
    requires |segs| >= 1
    requires forall i :: 0 <= i < |segs| ==> segs[i] != "" && '/' !in segs[i]
    ensures Segments("/" + Join(segs, "/")) == segs
  {
    var j := Join(segs, "/");
    SplitConsSep(j, '/');
    assert "/" + j == ['/'] + j;
    SplitJoin(segs, '/');
    assert Split("/" + j, '/') == [""] + segs;
    FilterAppend([""], segs, NonEmpty);
    FilterAll(segs, NonEmpty);
    assert Filter([""], NonEmpty) == [];
  }

  /** A slash splits the path into the segments before it and after it. */
  lemma SegmentsAppend(a: string, b: string)
    ensures Segments(a + "/" + b) == Segments(a) + Segments(b)
  {
    assert a + "/" + b == a + ['/'] + b;
    SplitAppend(a, b, '/');
    FilterAppend(Split(a, '/'), Split(b, '/'), NonEmpty);
  }

  /** A trailing slash adds no crumb: "/fornecedores/" and "/fornecedores"
      show the same trail. */
  lemma TrailingSlashIgnored(path: string)
    requires path != "" && path != "/"
    ensures Crumbs(path + "/") == Crumbs(path)
  {
    SegmentsAppend(path, "");
    assert path + "/" + "" == path + "/";
    assert Split("", '/') == [""];
    assert Filter([""], NonEmpty) == [];
    assert Segments(path) + [] == Segments(path);
    assert path + "/" != "/" by {
      assert |path + "/"| >= 2;
    }
  }

  /** Repeated slashes act as one. */
  lemma DoubleSlashIgnored(a: string, b: string)
    ensures Segments(a + "//" + b) == Segments(a + "/" + b)
  {
    SegmentsAppend(a + "/", b);
    SegmentsAppend(a, "");
    SegmentsAppend(a, b);
    assert a + "//" + b == (a + "/") + "/" + b;
    assert a + "/" + "" == a + "/";
    assert Split("", '/') == [""];
    assert Filter([""], NonEmpty) == [];
    assert Segments(a) + [] == Segments(a);
  }
}
