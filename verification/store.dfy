/** The mock persistence layer: three JSON collections kept in browser
    storage under the keys `suppliers`, `categories` and `users`, each read
    with a fall-back to built-in default data, plus one backup slot under
    `system_backup` and the `isAdmin` flag the admin screens look at.

    A present key always holds a well-formed collection here, because only
    the setters below write those keys. The backup slot can also hold text
    that does not parse (`Unreadable`). */
module MockStore {
  import opened Options
  import opened Entities

  const PlaceholderImage: string := "https://via.placeholder.com/150"

  const DefaultSuppliers: seq<Supplier> := [
    Supplier(1, "MetalTech Ind.", "São Paulo, SP", 480,
      ["Aço Inoxidável", "Metalurgia", "Soldas Especiais"], PlaceholderImage, true,
      Some("Especializada em produtos metalúrgicos de alta qualidade"),
      Some("(11) 99999-9999"), Some("contato@metaltech.com.br")),
    Supplier(2, "PlastiCorp", "Rio de Janeiro, RJ", 460,
      ["Plásticos Industriais", "Moldagem", "Extrusão"], PlaceholderImage, true,
      Some("Líder em soluções de plásticos para a indústria"),
      Some("(21) 88888-7777"), Some("vendas@plasticorp.com.br")),
    Supplier(3, "FerramentasBR", "Belo Horizonte, MG", 450,
      ["Ferramentas Elétricas", "Manuais", "Medição"], PlaceholderImage, false,
      Some("Ampla variedade de ferramentas para profissionais e hobbistas"),
      Some("(31) 77777-6666"), Some("info@ferramentasbr.com.br")),
    Supplier(4, "QuímicoLab", "Campinas, SP", 470,
      ["Produtos Químicos", "Laboratório", "Análises"], PlaceholderImage, true,
      Some("Fornecimento de produtos químicos para indústria"),
      Some("(19) 66666-5555"), Some("lab@quimicolab.com.br")),
    Supplier(5, "EletroForte", "Porto Alegre, RS", 440,
      ["Componentes Eletrônicos", "Automação", "Controle"], PlaceholderImage, true,
      Some("Especialista em automação industrial"),
      Some("(51) 55555-4444"), Some("vendas@eletroforte.com.br"))
  ]

  const Compressor: Product := Product(1, "Compressor de Ar Industrial", "MetalTech Ind.",
    "Compressor de alta capacidade para uso industrial", 1, 1500000, 1)

  const DefaultCategories: seq<Category> := [
    Category(1, "Equipamentos Industriais", 1, "🏭", "equipamentos-industriais", [Compressor]),
    Category(2, "Matérias-Primas", 0, "⚡", "materias-primas", []),
    Category(3, "Ferramentas", 0, "🔧", "ferramentas", []),
    Category(4, "Componentes Eletrônicos", 0, "💻", "componentes-eletronicos", []),
    Category(5, "Embalagens", 0, "📦", "embalagens", []),
    Category(6, "Segurança Industrial", 0, "🛡️", "seguranca-industrial", [])
  ]

  const DefaultUsers: seq<User> := [
    User(1, "Isac", "isac@empresa.com.br", "(11) 99999-8888", "Empresa Industrial Ltda",
      "São Paulo, SP", "buyer", "2024-01-15", "2024-01-30", true)
  ]

  /** Every built-in category's stored count agrees with its product list. */
  lemma DefaultCountsMatch()
    ensures forall i :: 0 <= i < |DefaultCategories| ==> CountMatches(DefaultCategories[i])
  {
  }

  /** The snapshot `createBackup` writes; `version` is always "1.0". */
  datatype Backup = Backup(
    suppliers: seq<Supplier>,
    categories: seq<Category>,
    users: seq<User>,
    timestamp: string,
    version: string)

  /** The `system_backup` key: absent, present but not a backup object, or a
      backup. */
  datatype BackupSlot = NoBackup | Unreadable | Saved(backup: Backup)

  /** Browser storage, one field per key the application uses. */
  datatype Store = Store(
    suppliers: Option<seq<Supplier>>,
    categories: Option<seq<Category>>,
    users: Option<seq<User>>,
    backup: BackupSlot,
    isAdmin: Option<string>)

  const EmptyStore: Store := Store(None, None, None, NoBackup, None)

  /** The `isAdmin` key is truthy: present and not the empty string. */
  predicate IsAdmin(st: Store) {
    st.isAdmin.Some? && st.isAdmin.value != ""
  }

  /** `getSuppliers`: the stored list, or the defaults when the key is absent. */
  function GetSuppliers(st: Store): (r: seq<Supplier>)
    ensures st.suppliers.Some? ==> r == st.suppliers.value
    ensures st.suppliers.None? ==> r == DefaultSuppliers
  {
    st.suppliers.GetOr(DefaultSuppliers)
  }

  /** `getCategories`: the stored list, or the defaults when the key is absent. */
  function GetCategories(st: Store): (r: seq<Category>)
    ensures st.categories.Some? ==> r == st.categories.value
    ensures st.categories.None? ==> r == DefaultCategories
  {
    st.categories.GetOr(DefaultCategories)
  }

  /** `getUsers`: the stored list, or the defaults when the key is absent. */
  function GetUsers(st: Store): (r: seq<User>)
    ensures st.users.Some? ==> r == st.users.value
    ensures st.users.None? ==> r == DefaultUsers
  {
    st.users.GetOr(DefaultUsers)
  }

  /** `setSuppliers`: afterwards `getSuppliers` returns exactly `v`; no other
      key changes. */
  function SetSuppliers(st: Store, v: seq<Supplier>): (r: Store)
    ensures GetSuppliers(r) == v && r.suppliers.Some?
    ensures r.categories == st.categories && r.users == st.users
    ensures r.backup == st.backup && r.isAdmin == st.isAdmin
  {
    st.(suppliers := Some(v))
  }

  /** `setCategories`: afterwards `getCategories` returns exactly `v`; no
      other key changes. */
  function SetCategories(st: Store, v: seq<Category>): (r: Store)
    ensures GetCategories(r) == v && r.categories.Some?
    ensures r.suppliers == st.suppliers && r.users == st.users
    ensures r.backup == st.backup && r.isAdmin == st.isAdmin
  {
    st.(categories := Some(v))
  }

  /** `setUsers`: afterwards `getUsers` returns exactly `v`; no other key
      changes. */
  function SetUsers(st: Store, v: seq<User>): (r: Store)
    ensures GetUsers(r) == v && r.users.Some?
    ensures r.suppliers == st.suppliers && r.categories == st.categories
    ensures r.backup == st.backup && r.isAdmin == st.isAdmin
  {
    st.(users := Some(v))
  }

  /** `initializeData`: write the defaults under each absent collection key.
      A present key is never overwritten, and no getter can tell the
      difference: each returns what it returned before. */
  function InitializeData(st: Store): (r: Store)
    ensures st.suppliers.Some? ==> r.suppliers == st.suppliers
    ensures st.categories.Some? ==> r.categories == st.categories
    ensures st.users.Some? ==> r.users == st.users
    ensures r.suppliers.Some? && r.categories.Some? && r.users.Some?
    ensures GetSuppliers(r) == GetSuppliers(st)
    ensures GetCategories(r) == GetCategories(st)
    ensures GetUsers(r) == GetUsers(st)
    ensures r.backup == st.backup && r.isAdmin == st.isAdmin
  {
    var s1 := if st.suppliers.None? then SetSuppliers(st, DefaultSuppliers) else st;
    var s2 := if s1.categories.None? then SetCategories(s1, DefaultCategories) else s1;
    if s2.users.None? then SetUsers(s2, DefaultUsers) else s2
  }

  /** Initialising twice is the same as initialising once. */
  lemma InitializeIdempotent(st: Store)
    ensures InitializeData(InitializeData(st)) == InitializeData(st)
  {
  }

  /** `createBackup(now)`: snapshot what the three getters return, stamped
      with `now` and version "1.0", into the backup slot. The collection keys
      are not touched (an absent key stays absent). */
  function CreateBackup(st: Store, now: string): (r: (Store, Backup))
    ensures r.1.suppliers == GetSuppliers(st)
    ensures r.1.categories == GetCategories(st)
    ensures r.1.users == GetUsers(st)
    ensures r.1.timestamp == now && r.1.version == "1.0"
    ensures r.0.backup == Saved(r.1)
    ensures r.0.suppliers == st.suppliers && r.0.categories == st.categories
    ensures r.0.users == st.users && r.0.isAdmin == st.isAdmin
  {
    var b := Backup(GetSuppliers(st), GetCategories(st), GetUsers(st), now, "1.0");
    (st.(backup := Saved(b)), b)
  }

  /** `restoreBackup`: with no backup, or one that does not parse, answer
      false and change nothing; otherwise write the snapshot's three
      collections, answer true, and keep the backup itself. */
  function RestoreBackup(st: Store): (r: (Store, bool))
    ensures r.1 <==> st.backup.Saved?
    ensures !r.1 ==> r.0 == st
    ensures r.1 ==> GetSuppliers(r.0) == st.backup.backup.suppliers
    ensures r.1 ==> GetCategories(r.0) == st.backup.backup.categories
    ensures r.1 ==> GetUsers(r.0) == st.backup.backup.users
    ensures r.0.backup == st.backup && r.0.isAdmin == st.isAdmin
  {
    match st.backup
    case NoBackup => (st, false)
    case Unreadable => (st, false)
    case Saved(b) =>
      var s1 := SetSuppliers(st, b.suppliers);
      var s2 := SetCategories(s1, b.categories);
      (SetUsers(s2, b.users), true)
  }

  /** Restoring twice is the same as restoring once. */
  lemma RestoreIdempotent(st: Store)
    ensures RestoreBackup(RestoreBackup(st).0) == RestoreBackup(st)
  {
  }

  /** `getBackupInfo`: the stored snapshot, or nothing when the slot is
      empty or unreadable. */
  function BackupInfo(st: Store): (r: Option<Backup>)
    ensures r.Some? <==> st.backup.Saved?
    ensures r.Some? ==> r.value == st.backup.backup
  {
    match st.backup
    case Saved(b) => Some(b)
    case _ => None
  }

  /** `restoreToDefaults`: whatever was stored, all three getters return the
      built-in data afterwards; the backup is kept. */
  function RestoreToDefaults(st: Store): (r: Store)
    ensures GetSuppliers(r) == DefaultSuppliers
    ensures GetCategories(r) == DefaultCategories
    ensures GetUsers(r) == DefaultUsers
    ensures r.backup == st.backup && r.isAdmin == st.isAdmin
  {
    SetUsers(SetCategories(SetSuppliers(st, DefaultSuppliers), DefaultCategories), DefaultUsers)
  }

  /** A write any screen can make to storage between a backup and a restore. */
  datatype Write =
    | PutSuppliers(suppliers: seq<Supplier>)
    | PutCategories(categories: seq<Category>)
    | PutUsers(users: seq<User>)
    | Initialize
    | ResetToDefaults
    | PutAdminFlag(flag: Option<string>)

  function Apply(st: Store, w: Write): Store {
    match w
    case PutSuppliers(v) => SetSuppliers(st, v)
    case PutCategories(v) => SetCategories(st, v)
    case PutUsers(v) => SetUsers(st, v)
    case Initialize => InitializeData(st)
    case ResetToDefaults => RestoreToDefaults(st)
    case PutAdminFlag(f) => st.(isAdmin := f)
  }

  function ApplyAll(st: Store, ws: seq<Write>): Store
    decreases |ws|
  {
    if ws == [] then st else ApplyAll(Apply(st, ws[0]), ws[1..])
  }

  /** No sequence of writes touches the backup slot. */
  lemma {:induction false} WritesKeepBackup(st: Store, ws: seq<Write>)
    ensures ApplyAll(st, ws).backup == st.backup
    decreases |ws|
  {
    if ws != [] {
      WritesKeepBackup(Apply(st, ws[0]), ws[1..]);
    }
  }

  /** Backup, then any writes, then restore: every getter returns what it
      returned when the backup was taken. */
  lemma BackupRestoreRoundTrip(st: Store, now: string, ws: seq<Write>)
    ensures
      var taken := CreateBackup(st, now).0;
      var restored := RestoreBackup(ApplyAll(taken, ws));
      && restored.1
      && GetSuppliers(restored.0) == GetSuppliers(st)
      && GetCategories(restored.0) == GetCategories(st)
      && GetUsers(restored.0) == GetUsers(st)
  {
    var taken := CreateBackup(st, now).0;
    WritesKeepBackup(taken, ws);
  }
}
