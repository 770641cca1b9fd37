// The initialisation properties oledb_set_initialization_properties hands
// to the provider (oledb_driver.c:1035-1123): the DBINIT set built from the
// connection settings and the flags, the SQL Server set offered when the
// provider knows SSPROP_INIT_APPNAME, and the check that turns the
// provider's answer into a failure only when a REQUIRED property was not
// set.

module InitProperties {
  import opened OleDbInt

  /** The properties the driver may set. */
  datatype PropId =
    | DataSource | Catalog | InitTimeout | AuthIntegrated | UserId | Password
    | EncryptPassword | CacheAuthInfo | PersistSensitiveAuthInfo | PersistEncrypted | OleDbServices
    | AppName | Encrypt | AutoTranslate

  /** The VARIANT a property carries: VT_BSTR, VT_I4 or VT_BOOL. */
  datatype PropValue = Text(s: string) | Int(n: int) | Flag(b: bool)

  /** A DBPROP: its identity, value and whether DBPROPOPTIONS_REQUIRED. */
  datatype Prop = Prop(id: PropId, value: PropValue, required: bool)

  /** The size of props0 and props1. */
  const PROPS_CAPACITY: nat := 16

  const DBPROPSTATUS_OK: nat := 0
  const DBPROPVAL_OS_RESOURCEPOOLING: int := 1

  /** The connection flags the properties depend on, read once from the
      handle's flag word. */
  datatype Security = Security(secure: bool, pooling: bool, encryption: bool, autotranslate: bool)

  function SecurityOf(flags: Dword): (s: Security)
    ensures s.secure == Has(flags, SECURE_CONNECTION) && s.pooling == Has(flags, CONNECTION_POOLING)
    ensures s.encryption == Has(flags, ENCRYPTION) && s.autotranslate == Has(flags, AUTOTRANSLATE)
  {
    Security(Has(flags, SECURE_CONNECTION), Has(flags, CONNECTION_POOLING), Has(flags, ENCRYPTION), Has(flags, AUTOTRANSLATE))
  }

  /** What the handle and the DSN give: host, database, user name,
      password, timeout (0 for none) and application name. */
  datatype Settings = Settings(host: Option<string>, dbname: Option<string>, username: Option<string>,
                               password: Option<string>, timeout: int, appname: Option<string>)

  function Optional<T>(c: bool, p: T): seq<T>
  {
    if c then [p] else []
  }

  /** The credentials: SSPI for a secure connection to a host, else the
      user name and the password with its four optional flags. */
  function Credentials(st: Settings, sec: Security): seq<Prop>
  {
    if sec.secure then Optional(st.host.Some?, Prop(AuthIntegrated, Text("SSPI"), true))
    else
      Optional(st.username.Some?, Prop(UserId, Text(if st.username.Some? then st.username.value else ""), true))
      + (if st.password.Some? then
           [Prop(Password, Text(st.password.value), true),
            Prop(EncryptPassword, Flag(true), false), Prop(CacheAuthInfo, Flag(true), false),
            Prop(PersistSensitiveAuthInfo, Flag(true), false), Prop(PersistEncrypted, Flag(true), false)]
         else [])
  }

  /** The DBPROPSET_DBINIT set, in the order the properties are added. */
  function DbInitSet(st: Settings, sec: Security): seq<Prop>
  {
    Location(st) + Optional(st.timeout != 0, Prop(InitTimeout, Int(st.timeout), false))
    + Credentials(st, sec)
    + Optional(sec.pooling, Prop(OleDbServices, Int(DBPROPVAL_OS_RESOURCEPOOLING), false))
  }

  /** The data source and the catalog. */
  function Location(st: Settings): seq<Prop>
  {
    Optional(st.host.Some?, Prop(DataSource, Text(if st.host.Some? then st.host.value else ""), true))
    + Optional(st.dbname.Some?, Prop(Catalog, Text(if st.dbname.Some? then st.dbname.value else ""), true))
  }

  /** The DBPROPSET_SQLSERVERDBINIT set: the application name, encryption,
      and AUTOTRANSLATE off when the flag is clear; all optional. */
  function SqlServerSet(st: Settings, sec: Security): seq<Prop>
  {
    Optional(st.appname.Some?, Prop(AppName, Text(if st.appname.Some? then st.appname.value else ""), false))
    + Optional(sec.encryption, Prop(Encrypt, Flag(true), false))
    + Optional(!sec.autotranslate, Prop(AutoTranslate, Flag(false), false))
  }

  /** The sets handed to SetProperties: each one only when it is not
      empty, the SQL Server one only when the provider has
      SSPROP_INIT_APPNAME. */
  function PropertySets(st: Settings, sec: Security, sqlServer: bool): seq<seq<Prop>>
  {
    Optional(|DbInitSet(st, sec)| > 0, DbInitSet(st, sec))
    + Optional(sqlServer && |SqlServerSet(st, sec)| > 0, SqlServerSet(st, sec))
  }

  /** Neither fixed-size array can overflow. */
  lemma SetsFit(st: Settings, sec: Security, sqlServer: bool)
    ensures |DbInitSet(st, sec)| <= 10 <= PROPS_CAPACITY
    ensures |SqlServerSet(st, sec)| <= 3
    ensures var sets := PropertySets(st, sec, sqlServer);
      |sets| <= 2 && forall i :: 0 <= i < |sets| ==> 0 < |sets[i]| <= PROPS_CAPACITY
  {
    DbInitFits(st, sec);
    SqlServerFits(st, sec);
    var d, q := DbInitSet(st, sec), SqlServerSet(st, sec);
    var sets := PropertySets(st, sec, sqlServer);
    assert sets == Optional(|d| > 0, d) + Optional(sqlServer && |q| > 0, q);
    forall i | 0 <= i < |sets| ensures 0 < |sets[i]| <= PROPS_CAPACITY {
      assert sets[i] == d || sets[i] == q;
    }
  }

  lemma DbInitFits(st: Settings, sec: Security)
    ensures |DbInitSet(st, sec)| <= 10
  {
    assert |Location(st)| <= 2;
    assert |Credentials(st, sec)| <= 6;
  }

  lemma SqlServerFits(st: Settings, sec: Security)
    ensures |SqlServerSet(st, sec)| <= 3
  {
  }

  /** Every property of the sequence satisfies `f`. */
  predicate All(ps: seq<Prop>, f: Prop -> bool)
  {
    forall k :: 0 <= k < |ps| ==> f(ps[k])
  }

  lemma AllConcat(a: seq<Prop>, b: seq<Prop>, f: Prop -> bool)
    ensures All(a + b, f) <==> All(a, f) && All(b, f)
  {
    if All(a + b, f) {
      forall k | 0 <= k < |b| ensures f(b[k]) {
        assert b[k] == (a + b)[k + |a|];
      }
      forall k | 0 <= k < |a| ensures f(a[k]) {
        assert a[k] == (a + b)[k];
      }
    }
    if All(a, f) && All(b, f) {
      forall k | 0 <= k < |a + b| ensures f((a + b)[k]) {
        if k >= |a| {
          assert (a + b)[k] == b[k - |a|];
        }
      }
    }
  }

  /** A set built from options satisfies `f` when each option does. */
  lemma AllOptional(c: bool, p: Prop, f: Prop -> bool)
    ensures All(Optional(c, p), f) <==> !c || f(p)
  {
    if c {
      assert Optional(c, p)[0] == p;
    }
  }

  /** The properties the driver marks DBPROPOPTIONS_REQUIRED. */
  predicate RequiredId(id: PropId)
  {
    id in {DataSource, Catalog, AuthIntegrated, UserId, Password}
  }

  /** Whether a property is marked required exactly when its identity
      is one of the required ones. */
  predicate Marked(p: Prop)
  {
    p.required == RequiredId(p.id)
  }

  lemma DbInitSetAll(st: Settings, sec: Security, f: Prop -> bool)
    requires All(Location(st), f) && All(Credentials(st, sec), f)
    requires st.timeout != 0 ==> f(Prop(InitTimeout, Int(st.timeout), false))
    requires sec.pooling ==> f(Prop(OleDbServices, Int(DBPROPVAL_OS_RESOURCEPOOLING), false))
    ensures All(DbInitSet(st, sec), f)
  {
    var t := Optional(st.timeout != 0, Prop(InitTimeout, Int(st.timeout), false));
    var o := Optional(sec.pooling, Prop(OleDbServices, Int(DBPROPVAL_OS_RESOURCEPOOLING), false));
    AllOptional(st.timeout != 0, Prop(InitTimeout, Int(st.timeout), false), f);
    AllOptional(sec.pooling, Prop(OleDbServices, Int(DBPROPVAL_OS_RESOURCEPOOLING), false), f);
    AllConcat(Location(st), t, f);
    AllConcat(Location(st) + t, Credentials(st, sec), f);
    AllConcat(Location(st) + t + Credentials(st, sec), o, f);
  }

  lemma LocationMarked(st: Settings)
    ensures All(Location(st), Marked)
  {
    var h := Optional(st.host.Some?, Prop(DataSource, Text(if st.host.Some? then st.host.value else ""), true));
    var d := Optional(st.dbname.Some?, Prop(Catalog, Text(if st.dbname.Some? then st.dbname.value else ""), true));
    AllOptional(st.host.Some?, Prop(DataSource, Text(if st.host.Some? then st.host.value else ""), true), Marked);
    AllOptional(st.dbname.Some?, Prop(Catalog, Text(if st.dbname.Some? then st.dbname.value else ""), true), Marked);
    AllConcat(h, d, Marked);
  }

  lemma CredentialsAll(st: Settings, sec: Security, f: Prop -> bool)
    requires sec.secure && st.host.Some? ==> f(Prop(AuthIntegrated, Text("SSPI"), true))
    requires !sec.secure && st.username.Some? ==> f(Prop(UserId, Text(st.username.value), true))
    requires !sec.secure && st.password.Some? ==>
      && f(Prop(Password, Text(st.password.value), true))
      && f(Prop(EncryptPassword, Flag(true), false)) && f(Prop(CacheAuthInfo, Flag(true), false))
      && f(Prop(PersistSensitiveAuthInfo, Flag(true), false)) && f(Prop(PersistEncrypted, Flag(true), false))
    ensures All(Credentials(st, sec), f)
  {
    if sec.secure {
      AllOptional(st.host.Some?, Prop(AuthIntegrated, Text("SSPI"), true), f);
    } else {
      var u := Optional(st.username.Some?, Prop(UserId, Text(if st.username.Some? then st.username.value else ""), true));
      AllOptional(st.username.Some?, Prop(UserId, Text(if st.username.Some? then st.username.value else ""), true), f);
      var pw: seq<Prop> := if st.password.Some? then
        [Prop(Password, Text(st.password.value), true),
         Prop(EncryptPassword, Flag(true), false), Prop(CacheAuthInfo, Flag(true), false),
         Prop(PersistSensitiveAuthInfo, Flag(true), false), Prop(PersistEncrypted, Flag(true), false)]
        else [];
      assert All(pw, f);
      AllConcat(u, pw, f);
    }
  }

  /** The required properties are the data source, the catalog and the
      credentials (SSPI, or the user name and the password); everything
      else is optional. */
  lemma RequiredProperties(st: Settings, sec: Security)
    ensures forall k :: 0 <= k < |DbInitSet(st, sec)| ==>
      (DbInitSet(st, sec)[k].required <==> RequiredId(DbInitSet(st, sec)[k].id))
    ensures forall k :: 0 <= k < |SqlServerSet(st, sec)| ==> !SqlServerSet(st, sec)[k].required
  {
    LocationMarked(st);
    CredentialsAll(st, sec, Marked);
    DbInitSetAll(st, sec, Marked);
    assert All(DbInitSet(st, sec), Marked);
  }

  /** The credentials a connection would not send. */
  predicate NoCredentialsFor(secure: bool, p: Prop)
  {
    if secure then p.id != UserId && p.id != Password else p.id != AuthIntegrated
  }

  /** A secure connection sends no user name or password; any other sends
      no SSPI request. */
  lemma SecureSendsNoPassword(st: Settings, sec: Security)
    ensures sec.secure ==> forall k :: 0 <= k < |DbInitSet(st, sec)| ==>
      DbInitSet(st, sec)[k].id != UserId && DbInitSet(st, sec)[k].id != Password
    ensures !sec.secure ==> forall k :: 0 <= k < |DbInitSet(st, sec)| ==> DbInitSet(st, sec)[k].id != AuthIntegrated
  {
    var f := (p: Prop) => NoCredentialsFor(sec.secure, p);
    LocationNoCredentials(st, sec.secure);
    CredentialsAll(st, sec, f);
    DbInitSetAll(st, sec, f);
    assert All(DbInitSet(st, sec), f);
  }

  lemma LocationNoCredentials(st: Settings, secure: bool)
    ensures All(Location(st), (p: Prop) => NoCredentialsFor(secure, p))
  {
    var f := (p: Prop) => NoCredentialsFor(secure, p);
    var h := Optional(st.host.Some?, Prop(DataSource, Text(if st.host.Some? then st.host.value else ""), true));
    var d := Optional(st.dbname.Some?, Prop(Catalog, Text(if st.dbname.Some? then st.dbname.value else ""), true));
    AllOptional(st.host.Some?, Prop(DataSource, Text(if st.host.Some? then st.host.value else ""), true), f);
    AllOptional(st.dbname.Some?, Prop(Catalog, Text(if st.dbname.Some? then st.dbname.value else ""), true), f);
    AllConcat(h, d, f);
  }

  /** Some REQUIRED property came back with a status other than
      DBPROPSTATUS_OK. */
  predicate RequiredFailed(sets: seq<seq<Prop>>, status: (nat, nat) -> nat)
  {
    exists i, j :: 0 <= i < |sets| && 0 <= j < |sets[i]| && sets[i][j].required && status(i, j) != DBPROPSTATUS_OK
  }

  /** The outcome oledb_set_initialization_properties promises: S_OK
      unless SetProperties was called and failed and some required
      property was not set, in which case its status. */
  function InitializationResult(sets: seq<seq<Prop>>, providerHr: HResult, status: (nat, nat) -> nat): HResult
  {
    var hr := if |sets| > 0 then providerHr else S_OK;
    if hr != S_OK && RequiredFailed(sets, status) then hr else S_OK
  }

  /** oledb_set_initialization_properties from the assembled sets on: the
      provider's SetProperties answers `providerHr` and a status per
      property, and the nested loop looks for a required property that
      was not set. */
  method SetInitializationProperties(sets: seq<seq<Prop>>, providerHr: HResult, status: (nat, nat) -> nat)
    returns (hr: HResult)
    ensures hr == InitializationResult(sets, providerHr, status)
  {
    hr := S_OK;
    if |sets| > 0 {
      hr := providerHr;
    }
    if hr != S_OK {
      var i := 0;
      while i < |sets|
        invariant 0 <= i <= |sets|
        invariant forall i', j :: 0 <= i' < i && 0 <= j < |sets[i']| ==>
          !(sets[i'][j].required && status(i', j) != DBPROPSTATUS_OK)
      {
        var j := 0;
        while j < |sets[i]|
          invariant 0 <= j <= |sets[i]|
          invariant forall j' :: 0 <= j' < j ==> !(sets[i][j'].required && status(i, j') != DBPROPSTATUS_OK)
        {
          if status(i, j) != DBPROPSTATUS_OK && sets[i][j].required {
            return;
          }
          j := j + 1;
        }
        i := i + 1;
      }
    }
    hr := S_OK;
  }

  /** Initialisation fails only when SetProperties failed and a required
      property was not set, and then with the provider's status. */
  lemma FailsOnlyOnRequired(sets: seq<seq<Prop>>, providerHr: HResult, status: (nat, nat) -> nat)
    ensures var r := InitializationResult(sets, providerHr, status);
      r != S_OK <==> |sets| > 0 && providerHr != S_OK && RequiredFailed(sets, status)
    ensures InitializationResult(sets, providerHr, status) in {S_OK, providerHr}
  {
  }

  /** With only optional properties (no credentials, host or database,
      as for the generic factory with no user), any answer is S_OK. */
  lemma OptionalOnly(st: Settings, sec: Security, sqlServer: bool, providerHr: HResult, status: (nat, nat) -> nat)
    requires st.host.None? && st.dbname.None? && st.username.None? && st.password.None?
    ensures InitializationResult(PropertySets(st, sec, sqlServer), providerHr, status) == S_OK
  {
    var d, q := DbInitSet(st, sec), SqlServerSet(st, sec);
    NothingRequired(st, sec);
    var sets: seq<seq<Prop>> := PropertySets(st, sec, sqlServer);
    assert sets == Optional(|d| > 0, d) + Optional(sqlServer && |q| > 0, q);
    forall i: int, j: int | 0 <= i < |sets| && 0 <= j < |sets[i]| ensures !sets[i][j].required {
      assert sets[i] == d || sets[i] == q;
    }
  }

  lemma NothingRequired(st: Settings, sec: Security)
    requires st.host.None? && st.dbname.None? && st.username.None? && st.password.None?
    ensures forall k :: 0 <= k < |DbInitSet(st, sec)| ==> !DbInitSet(st, sec)[k].required
    ensures forall k :: 0 <= k < |SqlServerSet(st, sec)| ==> !SqlServerSet(st, sec)[k].required
  {
    var d := DbInitSet(st, sec);
    assert Location(st) == [] && Credentials(st, sec) == [];
    assert d == Optional(st.timeout != 0, Prop(InitTimeout, Int(st.timeout), false))
      + Optional(sec.pooling, Prop(OleDbServices, Int(DBPROPVAL_OS_RESOURCEPOOLING), false));
  }
}
