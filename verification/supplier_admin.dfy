/** The supplier admin screen: a list of suppliers edited through one form
    whose specialties are a single comma-separated text field. `confirm()`
    is the `confirmed` argument and `Date.now()` the `freshId` argument. */
module SupplierAdmin {
  import opened Options
  import opened Entities
  import opened Text
  import opened Seqs
  import MockStore

  /** The form's fields; `specialties` is the raw text of its input. */
  datatype SupplierForm = SupplierForm(
    name: string,
    location: string,
    rating: Hundredths,
    specialties: string,
    image: string,
    verified: bool,
    description: string,
    phone: string,
    email: string)

  /** The empty form: rating 5 and verified ticked. */
  const BlankForm: SupplierForm := SupplierForm("", "", 500, "", "", true, "", "", "")

  datatype Screen = Screen(
    suppliers: seq<Supplier>,
    form: SupplierForm,
    editing: Option<Supplier>,
    showForm: bool)

  /** The screen starts from the first three built-in suppliers. */
  const Seed: seq<Supplier> := MockStore.DefaultSuppliers[..3]

  const Initial: Screen := Screen(Seed, BlankForm, None, false)

  /** `field.split(',').map(s => s.trim())`: one entry per comma plus one,
      each trimmed and comma-free. */
  function Specialties(field: string): (r: seq<string>)
    ensures |r| == Count(field, ',') + 1 == |Split(field, ',')|
    ensures forall i :: 0 <= i < |r| ==> r[i] == Trim(Split(field, ',')[i])
    ensures forall i :: 0 <= i < |r| ==> Trimmed(r[i]) && ',' !in r[i]
  {
    var parts := Split(field, ',');
    SplitCount(field, ',');
    SplitPieces(field, ',');
    seq(|parts|, i requires 0 <= i < |parts| => TrimNoComma(parts[i]))
  }

  /** Trimming a comma-free piece leaves it comma-free. */
  function TrimNoComma(piece: string): (r: string)
    requires ',' !in piece
    ensures r == Trim(piece) && ',' !in r
  {
    var r := Trim(piece);
    var k :| 0 <= k <= |piece| - |r| && OccursAt(piece, r, k);
    assert forall j :: 0 <= j < |r| ==> r[j] == piece[k + j];
    r
  }

  /** The supplier `handleSubmit` builds from the form: the image falls back
      to the placeholder when the field is empty, and description, phone and
      e-mail are always present (possibly empty). */
  function FromForm(form: SupplierForm, editing: Option<Supplier>, freshId: int): (r: Supplier)
    ensures r.id == (if editing.Some? then editing.value.id else freshId)
    ensures r.image == (if form.image == "" then MockStore.PlaceholderImage else form.image)
    ensures r.specialties == Specialties(form.specialties)
    ensures r.description == Some(form.description) && r.phone == Some(form.phone) && r.email == Some(form.email)
    ensures r.name == form.name && r.location == form.location
    ensures r.rating == form.rating && r.verified == form.verified
  {
    Supplier(
      if editing.Some? then editing.value.id else freshId,
      form.name, form.location, form.rating, Specialties(form.specialties),
      if form.image != "" then form.image else MockStore.PlaceholderImage,
      form.verified, Some(form.description), Some(form.phone), Some(form.email))
  }

  /** `handleSubmit` on the list: adding appends the new supplier; editing
      replaces every entry with the edited supplier's id and keeps the rest
      and the order. */
  function Submit(list: seq<Supplier>, form: SupplierForm, editing: Option<Supplier>, freshId: int)
    : (r: seq<Supplier>)
    ensures editing.None? ==> r == list + [FromForm(form, editing, freshId)]
    ensures editing.Some? ==> |r| == |list|
    ensures editing.Some? ==> forall i :: 0 <= i < |list| ==>
      r[i] == (if list[i].id == editing.value.id then FromForm(form, editing, freshId) else list[i])
  {
    var s := FromForm(form, editing, freshId);
    match editing
    case Some(e) => Replace(list, (x: Supplier) => x.id == e.id, s)
    case None => list + [s]
  }

  /** `handleDelete`: when confirmed, every supplier with the id is removed
      and the rest keep their order; when declined nothing changes. */
  function Delete(list: seq<Supplier>, id: int, confirmed: bool): (r: seq<Supplier>)
    ensures !confirmed ==> r == list
    ensures confirmed ==> forall i :: 0 <= i < |r| ==> r[i].id != id && r[i] in list
    ensures confirmed ==> forall i :: 0 <= i < |list| && list[i].id != id ==> list[i] in r
    ensures confirmed ==> forall s :: multiset(r)[s] == if s.id != id then multiset(list)[s] else 0
    ensures IsSubsequence(r, list)
  {
    if confirmed then
      var keep := (s: Supplier) => s.id != id;
      FilterIsSubsequence(list, keep);
      FilterMultiset(list, keep);
      Filter(list, keep)
    else
      SubsequenceRefl(list);
      list
  }

  /** `handleEdit`: the form shows the supplier with its specialties joined
      by ", " and missing optional fields as "". */
  function FormOf(s: Supplier): (r: SupplierForm)
    ensures r.description == s.description.GetOr("") && r.phone == s.phone.GetOr("")
    ensures r.email == s.email.GetOr("")
    ensures r.name == s.name && r.location == s.location && r.rating == s.rating
    ensures r.image == s.image && r.verified == s.verified
    ensures r.specialties == Join(s.specialties, ", ")
  {
    SupplierForm(s.name, s.location, s.rating, Join(s.specialties, ", "), s.image, s.verified,
      s.description.GetOr(""), s.phone.GetOr(""), s.email.GetOr(""))
  }

  function StartEdit(sc: Screen, s: Supplier): (r: Screen)
    ensures r.editing == Some(s) && r.form == FormOf(s) && r.showForm
    ensures r.suppliers == sc.suppliers
  {
    sc.(editing := Some(s), form := FormOf(s), showForm := true)
  }

  /** `resetForm`: blank form, no edit target, form hidden. */
  function ResetForm(sc: Screen): (r: Screen)
    ensures r.form == BlankForm && r.editing.None? && !r.showForm
    ensures r.suppliers == sc.suppliers
  {
    sc.(form := BlankForm, editing := None, showForm := false)
  }

  function OnSubmit(sc: Screen, freshId: int): (r: Screen)
    ensures r.suppliers == Submit(sc.suppliers, sc.form, sc.editing, freshId)
    ensures r.form == BlankForm && r.editing.None? && !r.showForm
  {
    ResetForm(sc.(suppliers := Submit(sc.suppliers, sc.form, sc.editing, freshId)))
  }

  function OnDelete(sc: Screen, id: int, confirmed: bool): (r: Screen)
    ensures r.suppliers == Delete(sc.suppliers, id, confirmed)
    ensures r.form == sc.form && r.editing == sc.editing && r.showForm == sc.showForm
  {
    sc.(suppliers := Delete(sc.suppliers, id, confirmed))
  }

  /** Each piece after the first, with the blank that ", " puts before it. */
  function Padded(xs: seq<string>): (r: seq<string>)
    ensures |r| == |xs| && forall i :: 0 <= i < |xs| ==> r[i] == " " + xs[i]
  {
    seq(|xs|, i requires 0 <= i < |xs| => " " + xs[i])
  }

  /** Moving the blank of ", " from the separator onto the next piece. */
  lemma MoveBlank(a: string, b: string)
    ensures (a + ",") + (" " + b) == (a + ", ") + b
  {
    assert a + "," + (" " + b) == (a + "," + " ") + b;
    assert a + ("," + " ") == (a + ",") + " ";
  }

  lemma {:induction false} JoinPadded(xs: seq<string>)
    requires |xs| >= 1
    ensures Join(Padded(xs), ",") == " " + Join(xs, ", ")
    decreases |xs|
  {
    if |xs| >= 2 {
      var j := Join(xs[1..], ", ");
      JoinPadded(xs[1..]);
      assert Padded(xs)[1..] == Padded(xs[1..]);
      assert Join(Padded(xs), ",") == (" " + xs[0]) + "," + (" " + j);
      MoveBlank(" " + xs[0], j);
      assert " " + (xs[0] + ", ") == (" " + xs[0]) + ", ";
      assert " " + (xs[0] + ", " + j) == (" " + xs[0] + ", ") + j;
    }
  }

  /** Joining with ", " is joining with "," after padding every piece but
      the first with one blank. */
  lemma JoinCommaBlank(p: seq<string>)
    requires |p| >= 1
    ensures Join(p, ", ") == Join([p[0]] + Padded(p[1..]), ",")
  {
    var q := [p[0]] + Padded(p[1..]);
    if |p| >= 2 {
      var j := Join(p[1..], ", ");
      assert q[0] == p[0] && q[1..] == Padded(p[1..]);
      JoinPadded(p[1..]);
      assert Join(q, ",") == p[0] + "," + (" " + j);
      MoveBlank(p[0], j);
    }
  }

  /** Specialties that are non-empty as a list, comma-free and already
      trimmed survive being shown in the form and read back. */
  predicate Representable(specialties: seq<string>) {
    |specialties| >= 1 && forall i :: 0 <= i < |specialties| ==> Trimmed(specialties[i]) && ',' !in specialties[i]
  }

  lemma SpecialtiesRoundTrip(p: seq<string>)
    requires Representable(p)
    ensures Specialties(Join(p, ", ")) == p
  {
    JoinedSplits(p);
    var r := Specialties(Join(p, ", "));
    forall i | 0 <= i < |p|
      ensures r[i] == p[i]
    {
      PieceTrims(p, i);
    }
  }

  /** Splitting the ", "-joined specialties at commas gives the padded
      pieces. */
  lemma JoinedSplits(p: seq<string>)
    requires Representable(p)
    ensures Split(Join(p, ", "), ',') == [p[0]] + Padded(p[1..])
  {
    JoinCommaBlank(p);
    PaddedSplits(p);
  }

  /** Trimming a padded piece gives the specialty back. */
  lemma PieceTrims(p: seq<string>, i: nat)
    requires Representable(p) && i < |p|
    ensures Trim(([p[0]] + Padded(p[1..]))[i]) == p[i]
  {
    if i > 0 {
      assert ([p[0]] + Padded(p[1..]))[i] == " " + p[i];
      TrimLeadingBlank(p[i]);
    } else {
      assert Trimmed(p[0]);
    }
  }

  /** The padded pieces are exactly what splitting the ", "-joined text at
      commas gives. */
  lemma PaddedSplits(p: seq<string>)
    requires Representable(p)
    ensures Split(Join([p[0]] + Padded(p[1..]), ","), ',') == [p[0]] + Padded(p[1..])
  {
    var q := [p[0]] + Padded(p[1..]);
    forall i | 0 <= i < |q|
      ensures ',' !in q[i]
    {
      if i > 0 {
        assert q[i] == " " + p[i];
      }
    }
    SplitJoin(q, ',');
  }

  /** A supplier with no specialties comes back with one empty specialty. */
  lemma NoSpecialtiesComeBackAsOneBlank()
    ensures Specialties(Join([], ", ")) == [""]
  {
    assert Split("", ',') == [""];
  }

  /** A supplier that is fully filled in and whose specialties are
      representable comes back unchanged from the form. */
  predicate FormFaithful(s: Supplier) {
    && Representable(s.specialties) && s.image != ""
    && s.description.Some? && s.phone.Some? && s.email.Some?
  }

  lemma FormRoundTrip(s: Supplier, freshId: int)
    requires FormFaithful(s)
    ensures FromForm(FormOf(s), Some(s), freshId) == s
  {
    SpecialtiesRoundTrip(s.specialties);
  }

  /** Opening a listed supplier for editing and saving without changes
      leaves the list as it was, when ids are unique. */
  lemma EditUnchangedIsIdentity(sc: Screen, k: nat, freshId: int)
    requires k < |sc.suppliers| && FormFaithful(sc.suppliers[k])
    requires forall i, j :: 0 <= i < j < |sc.suppliers| ==> sc.suppliers[i].id != sc.suppliers[j].id
    ensures OnSubmit(StartEdit(sc, sc.suppliers[k]), freshId).suppliers == sc.suppliers
  {
    var s := sc.suppliers[k];
    FormRoundTrip(s, freshId);
    var r := Submit(sc.suppliers, FormOf(s), Some(s), freshId);
    forall i | 0 <= i < |sc.suppliers|
      ensures r[i] == sc.suppliers[i]
    {
      if sc.suppliers[i].id == s.id {
        assert i == k;
      }
    }
  }

  /** Adding a supplier with a fresh id and deleting that id gives back the
      original list. */
  lemma AddThenDelete(list: seq<Supplier>, form: SupplierForm, freshId: int)
    requires forall i :: 0 <= i < |list| ==> list[i].id != freshId
    ensures Delete(Submit(list, form, None, freshId), freshId, true) == list
  {
    var keep := (s: Supplier) => s.id != freshId;
    FilterAppend(list, [FromForm(form, None, freshId)], keep);
    FilterAll(list, keep);
  }
}
