/** URL slugs of categories: the expression `name.toLowerCase().replace(/\s+/g, '-')`
    that the category card uses for its link and the category admin screen
    uses as the default slug, and the slug lookup of the category page. */
module Slugs {
  import opened Options
  import opened Text
  import Seqs

  /** `s.replace(/\s+/g, '-')`: every maximal run of whitespace becomes one
      '-'; every other character is kept in place. */
  function DashRuns(s: string): (r: string)
    ensures NoSpace(r)
    ensures |r| <= |s|
    decreases |s|
  {
    if s == [] then []
    else if IsSpace(s[0]) then "-" + DashRuns(TrimStart(s))
    else [s[0]] + DashRuns(s[1..])
  }

  /** The category slug derived from a name. */
  function Slugify(name: string): (r: string)
    ensures NoSpace(r)
    ensures |r| <= |name|
  {
    DashRuns(LowerStr(name))
  }

  /** A string without whitespace has no run to replace. */
  lemma {:induction false} DashRunsNoSpace(s: string)
    requires NoSpace(s)
    ensures DashRuns(s) == s
    decreases |s|
  {
    if s != [] {
      DashRunsNoSpace(s[1..]);
      assert s == [s[0]] + s[1..];
    }
  }

  /** Every character is its own lower case. */
  predicate IsLowerCase(s: string) {
    forall i :: 0 <= i < |s| ==> Lower(s[i]) == s[i]
  }

  /** The replacement only inserts '-', which has no other case. */
  lemma {:induction false} DashRunsKeepsLowerCase(s: string)
    requires IsLowerCase(s)
    ensures IsLowerCase(DashRuns(s))
    decreases |s|
  {
    if s != [] {
      if IsSpace(s[0]) {
        var t := TrimStart(s);
        assert IsLowerCase(t) by {
          forall i | 0 <= i < |t|
            ensures Lower(t[i]) == t[i]
          {
            assert t[i] == s[|s| - |t| + i];
          }
        }
        DashRunsKeepsLowerCase(t);
      } else {
        assert IsLowerCase(s[1..]) by {
          forall i | 0 <= i < |s| - 1
            ensures Lower(s[1..][i]) == s[1..][i]
          {
            assert s[1..][i] == s[i + 1];
          }
        }
        DashRunsKeepsLowerCase(s[1..]);
      }
    }
  }

  /** Slugifying a slug gives it back. */
  lemma SlugifyIdempotent(name: string)
    ensures Slugify(Slugify(name)) == Slugify(name)
  {
    var low := LowerStr(name);
    forall i | 0 <= i < |low|
      ensures Lower(low[i]) == low[i]
    {
      LowerFacts(name[i]);
    }
    DashRunsKeepsLowerCase(low);
    var r := DashRuns(low);
    assert LowerStr(r) == r;
    DashRunsNoSpace(r);
  }

  /** Splitting before a non-whitespace character splits the replacement. */
  lemma {:induction false} DashRunsAppend(a: string, b: string)
    requires a == [] || !IsSpace(a[|a| - 1])
    ensures DashRuns(a + b) == DashRuns(a) + DashRuns(b)
    decreases |a|
  {
    if a == [] {
      assert a + b == b;
    } else {
      var s := a + b;
      assert s[0] == a[0];
      if IsSpace(a[0]) {
        TrimStartAppend(a, b);
        var t := TrimStart(a);
        assert t[|t| - 1] == a[|a| - 1];
        DashRunsAppend(t, b);
        assert DashRuns(s) == "-" + DashRuns(t + b);
        assert DashRuns(a) == "-" + DashRuns(t);
        Seqs.AppendAssoc("-", DashRuns(t), DashRuns(b));
      } else {
        assert s[1..] == a[1..] + b;
        DashRunsAppend(a[1..], b);
        assert DashRuns(s) == [a[0]] + DashRuns(a[1..] + b);
        assert DashRuns(a) == [a[0]] + DashRuns(a[1..]);
        Seqs.AppendAssoc([a[0]], DashRuns(a[1..]), DashRuns(b));
      }
    }
  }

  /** Leading whitespace of `a + b` lies inside `a` when `a` ends with a
      non-whitespace character. */
  lemma {:induction false} TrimStartAppend(a: string, b: string)
    requires a != [] && !IsSpace(a[|a| - 1])
    ensures TrimStart(a + b) == TrimStart(a) + b
    ensures TrimStart(a) != []
    decreases |a|
  {
    var s := a + b;
    assert s[0] == a[0];
    if IsSpace(a[0]) {
      assert s[1..] == a[1..] + b;
      TrimStartAppend(a[1..], b);
    }
  }

  /** A non-empty whitespace run in front of a non-whitespace character
      becomes one '-'. */
  lemma DashRunsRun(w: string, b: string)
    requires w != [] && forall i :: 0 <= i < |w| ==> IsSpace(w[i])
    requires b == [] || !IsSpace(b[0])
    ensures DashRuns(w + b) == "-" + DashRuns(b)
  {
    TrimStartRun(w, b);
  }

  lemma {:induction false} TrimStartRun(w: string, b: string)
    requires forall i :: 0 <= i < |w| ==> IsSpace(w[i])
    requires b == [] || !IsSpace(b[0])
    ensures TrimStart(w + b) == b
    decreases |w|
  {
    if w == [] {
      assert w + b == b;
    } else {
      assert (w + b)[1..] == w[1..] + b;
      TrimStartRun(w[1..], b);
    }
  }

  /** The replacement characterised: in `a + w + b`, with `w` a maximal
      whitespace run, `w` becomes exactly one '-' and both sides are
      replaced independently. */
  lemma ReplaceMaximalRun(a: string, w: string, b: string)
    requires a == [] || !IsSpace(a[|a| - 1])
    requires w != [] && forall i :: 0 <= i < |w| ==> IsSpace(w[i])
    requires b == [] || !IsSpace(b[0])
    ensures DashRuns(a + w + b) == DashRuns(a) + "-" + DashRuns(b)
  {
    assert a + w + b == a + (w + b);
    DashRunsAppend(a, w + b);
    DashRunsRun(w, b);
    Seqs.AppendAssoc(DashRuns(a), "-", DashRuns(b));
  }

  /** Two words around one blank: the blank becomes '-'. */
  lemma DashRunsOneBlank(a: string, b: string)
    requires a != [] && NoSpace(a) && NoSpace(b)
    ensures DashRuns(a + " " + b) == a + "-" + b
  {
    ReplaceMaximalRun(a, " ", b);
    DashRunsNoSpace(a);
    DashRunsNoSpace(b);
  }

  /** The category card's link target. */
  function CardLink(name: string): (r: string)
    ensures |r| == |"/categorias/"| + |Slugify(name)|
    ensures r[..12] == "/categorias/" && r[12..] == Slugify(name)
    ensures NoSpace(r[12..])
  {
    "/categorias/" + Slugify(name)
  }

  /** A category as the category page lists it. */
  datatype Listed = Listed(name: string, count: int, icon: string, slug: string)

  /** The categories of the category page, each with its hand-written slug. */
  const PageCategories: seq<Listed> := [
    Listed("Equipamentos Industriais", 437, "🏭", "equipamentos-industriais"),
    Listed("Matérias-Primas", 294, "⚡", "materias-primas"),
    Listed("Ferramentas", 183, "🔧", "ferramentas"),
    Listed("Componentes Eletrônicos", 256, "💻", "componentes-eletronicos"),
    Listed("Embalagens", 165, "📦", "embalagens"),
    Listed("Segurança Industrial", 92, "🛡️", "seguranca-industrial")
  ]

  /** `categories.find(cat => cat.slug === slug)`: the first category with
      that slug. */
  function FindBySlug(cats: seq<Listed>, slug: string): (r: Option<Listed>)
    ensures r.Some? ==> r.value in cats && r.value.slug == slug
    ensures r.None? <==> forall i :: 0 <= i < |cats| ==> cats[i].slug != slug
    decreases |cats|
  {
    if cats == [] then None
    else if cats[0].slug == slug then Some(cats[0])
    else FindBySlug(cats[1..], slug)
  }

  /** Case mapping keeps accents, so the card for "Matérias-Primas" links to
      a slug the category page does not know. */
  lemma AccentedCardLinkIsDead()
    ensures Slugify("Matérias-Primas") == "matérias-primas"
    ensures FindBySlug(PageCategories, Slugify("Matérias-Primas")) == None
  {
    AccentedSlug();
    NotAmongPageSlugs("matérias-primas");
  }

  lemma AccentedSlug()
    ensures Slugify("Matérias-Primas") == "matérias-primas"
    ensures "matérias-primas" != "materias-primas"
  {
    AccentedLower();
    DashRunsNoSpace("matérias-primas");
    AccentedDiffers();
  }

  lemma AccentedLower()
    ensures LowerStr("Matérias-Primas") == "matérias-primas"
    ensures NoSpace("matérias-primas")
  {
  }

  lemma AccentedDiffers()
    ensures "matérias-primas" != "materias-primas"
  {
    assert "materias-primas"[3] != "matérias-primas"[3];
  }

  /** A slug that differs from the six hand-written ones finds nothing. */
  lemma NotAmongPageSlugs(slug: string)
    requires slug != "equipamentos-industriais" && slug != "materias-primas"
    requires slug != "ferramentas" && slug != "componentes-eletronicos"
    requires slug != "embalagens" && slug != "seguranca-industrial"
    ensures FindBySlug(PageCategories, slug) == None
  {
    var p := PageCategories;
    assert p[0].slug == "equipamentos-industriais";
    assert p[1].slug == "materias-primas";
    assert p[2].slug == "ferramentas";
    assert p[3].slug == "componentes-eletronicos";
    assert p[4].slug == "embalagens";
    assert p[5].slug == "seguranca-industrial";
  }

  /** Lower-case Latin-1 letters with a diacritic mapped to their base letter. */
  function FoldAccent(c: char): char
  {
    var n := c as int;
    if 0xE0 <= n <= 0xE5 then 'a'
    else if n == 0xE7 then 'c'
    else if 0xE8 <= n <= 0xEB then 'e'
    else if 0xEC <= n <= 0xEF then 'i'
    else if n == 0xF1 then 'n'
    else if 0xF2 <= n <= 0xF6 then 'o'
    else if 0xF9 <= n <= 0xFC then 'u'
    else if n == 0xFD || n == 0xFF then 'y'
    else c
  }

  function FoldAccents(s: string): (r: string)
    ensures |r| == |s|
    ensures forall i :: 0 <= i < |s| ==> r[i] == FoldAccent(s[i])
  {
    seq(|s|, i requires 0 <= i < |s| => FoldAccent(s[i]))
  }

  /** The slug with diacritics removed after lower-casing, which is how the
      hand-written slugs of the seed data are formed. */
  function FoldedSlug(name: string): (r: string)
    ensures NoSpace(r)
    ensures |r| <= |name|
  {
    DashRuns(FoldAccents(LowerStr(name)))
  }

  /** The card link built from the folded slug. */
  function FoldedCardLink(name: string): (r: string)
    ensures |r| == 12 + |FoldedSlug(name)|
    ensures r[..12] == "/categorias/" && r[12..] == FoldedSlug(name)
  {
    "/categorias/" + FoldedSlug(name)
  }

  /** With the folded slug every category's card leads to that category. */
  lemma FoldedCardLinksResolve()
    ensures forall k :: 0 <= k < |PageCategories| ==>
      FindBySlug(PageCategories, FoldedSlug(PageCategories[k].name)) == Some(PageCategories[k])
  {
    forall k | 0 <= k < |PageCategories|
      ensures FindBySlug(PageCategories, FoldedSlug(PageCategories[k].name)) == Some(PageCategories[k])
    {
      PageEntries();
      if k == 0 {
        Folded0();
      } else if k == 1 {
        Folded1();
      } else if k == 2 {
        Folded2();
      } else if k == 3 {
        Folded3();
      } else if k == 4 {
        Folded4();
      } else {
        Folded5();
      }
      ResolvesAt(k);
    }
  }

  /** The hand-written slugs have pairwise different lengths. */
  lemma PageSlugLengths()
    ensures |PageCategories| == 6
    ensures |PageCategories[0].slug| == 24 && |PageCategories[1].slug| == 15
    ensures |PageCategories[2].slug| == 11 && |PageCategories[3].slug| == 23
    ensures |PageCategories[4].slug| == 10 && |PageCategories[5].slug| == 20
  {
  }

  /** Each hand-written slug finds its own category. */
  lemma ResolvesAt(k: nat)
    requires k < |PageCategories|
    ensures FindBySlug(PageCategories, PageCategories[k].slug) == Some(PageCategories[k])
  {
    PageSlugLengths();
    FindFirst(PageCategories, PageCategories[k].slug, k);
  }

  /** `find` returns the first match. */
  lemma {:induction false} FindFirst(cats: seq<Listed>, slug: string, k: nat)
    requires k < |cats| && cats[k].slug == slug
    requires forall j :: 0 <= j < k ==> cats[j].slug != slug
    ensures FindBySlug(cats, slug) == Some(cats[k])
    decreases k
  {
    if k > 0 {
      FindFirst(cats[1..], slug, k - 1);
    }
  }

  lemma PageEntries()
    ensures |PageCategories| == 6
    ensures PageCategories[0].name == "Equipamentos Industriais"
    ensures PageCategories[0].slug == "equipamentos-industriais"
    ensures PageCategories[1].name == "Matérias-Primas"
    ensures PageCategories[1].slug == "materias-primas"
    ensures PageCategories[2].name == "Ferramentas"
    ensures PageCategories[2].slug == "ferramentas"
    ensures PageCategories[3].name == "Componentes Eletrônicos"
    ensures PageCategories[3].slug == "componentes-eletronicos"
    ensures PageCategories[4].name == "Embalagens"
    ensures PageCategories[4].slug == "embalagens"
    ensures PageCategories[5].name == "Segurança Industrial"
    ensures PageCategories[5].slug == "seguranca-industrial"
  {
  }

  lemma Folded0() ensures FoldedSlug("Equipamentos Industriais") == "equipamentos-industriais" {
    Split0();
    FoldLowerBlank("Equipamentos", "Industriais");
    Word0();
    Word1();
    FoldedTwoWords("Equipamentos Industriais", "equipamentos", "industriais");
  }

  lemma Split0()
    ensures "Equipamentos Industriais" == "Equipamentos" + " " + "Industriais"
    ensures "equipamentos" + "-" + "industriais" == "equipamentos-industriais"
  {
  }

  lemma Folded1() ensures FoldedSlug("Matérias-Primas") == "materias-primas" {
    Word2();
    FoldedOneWord("Matérias-Primas", "materias-primas");
  }

  lemma Folded2() ensures FoldedSlug("Ferramentas") == "ferramentas" {
    Word3();
    FoldedOneWord("Ferramentas", "ferramentas");
  }

  lemma Folded3() ensures FoldedSlug("Componentes Eletrônicos") == "componentes-eletronicos" {
    Split3();
    FoldLowerBlank("Componentes", "Eletrônicos");
    Word4();
    Word5();
    FoldedTwoWords("Componentes Eletrônicos", "componentes", "eletronicos");
  }

  lemma Split3()
    ensures "Componentes Eletrônicos" == "Componentes" + " " + "Eletrônicos"
    ensures "componentes" + "-" + "eletronicos" == "componentes-eletronicos"
  {
  }

  lemma Folded4() ensures FoldedSlug("Embalagens") == "embalagens" {
    Word6();
    FoldedOneWord("Embalagens", "embalagens");
  }

  lemma Folded5() ensures FoldedSlug("Segurança Industrial") == "seguranca-industrial" {
    Split5();
    FoldLowerBlank("Segurança", "Industrial");
    Word7();
    Word8();
    FoldedTwoWords("Segurança Industrial", "seguranca", "industrial");
  }

  lemma Split5()
    ensures "Segurança Industrial" == "Segurança" + " " + "Industrial"
    ensures "seguranca" + "-" + "industrial" == "seguranca-industrial"
  {
  }

  /** Folding and lower-casing work character by character. */
  lemma FoldLowerBlank(a: string, b: string)
    ensures FoldAccents(LowerStr(a + " " + b)) ==
      FoldAccents(LowerStr(a)) + " " + FoldAccents(LowerStr(b))
  {
  }

  lemma Word0() ensures FoldAccents(LowerStr("Equipamentos")) == "equipamentos" && NoSpace("equipamentos") {}
  lemma Word1() ensures FoldAccents(LowerStr("Industriais")) == "industriais" && NoSpace("industriais") {}
  lemma Word2() ensures FoldAccents(LowerStr("Matérias-Primas")) == "materias-primas" && NoSpace("materias-primas") {}
  lemma Word3() ensures FoldAccents(LowerStr("Ferramentas")) == "ferramentas" && NoSpace("ferramentas") {}
  lemma Word4() ensures FoldAccents(LowerStr("Componentes")) == "componentes" && NoSpace("componentes") {}
  lemma Word5() ensures FoldAccents(LowerStr("Eletrônicos")) == "eletronicos" && NoSpace("eletronicos") {}
  lemma Word6() ensures FoldAccents(LowerStr("Embalagens")) == "embalagens" && NoSpace("embalagens") {}
  lemma Word7() ensures FoldAccents(LowerStr("Segurança")) == "seguranca" && NoSpace("seguranca") {}
  lemma Word8() ensures FoldAccents(LowerStr("Industrial")) == "industrial" && NoSpace("industrial") {}

  lemma FoldedOneWord(name: string, word: string)
    requires FoldAccents(LowerStr(name)) == word && NoSpace(word)
    ensures FoldedSlug(name) == word
  {
    DashRunsNoSpace(word);
  }

  lemma FoldedTwoWords(name: string, a: string, b: string)
    requires a != [] && NoSpace(a) && NoSpace(b)
    requires FoldAccents(LowerStr(name)) == a + " " + b
    ensures FoldedSlug(name) == a + "-" + b
  {
    DashRunsOneBlank(a, b);
  }
}
