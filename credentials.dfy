/** Login entries: how the bootstrap derives them from the login roster and
    how a login attempt is checked against them. SHA-256 followed by the hex
    digest is the parameter `H`; the random salt draws are parameters. */
module Credentials {
  import opened Optional
  import opened Records

  /** The number of salt characters stored in front of the digest. */
  const SaltLength := 4

  /** The number of printable ASCII characters a salt character is drawn from. */
  const SaltAlphabet := 95

  /** A row of the login roster, as loaded under its `username`. */
  datatype LoginRow = LoginRow(id: string, username: string, password: string, roleLabel: string)

  /** An entry of the login table. */
  datatype LoginRecord = LoginRecord(id: string, username: string, password: string, role: Role)

  /** The fixed lookup from roster labels to roles; any other label has no
      role (the lookup raises `KeyError`). */
  function RoleOfLabel(tag: string): (r: Option<Role>)
    ensures r == Some(Member) <==> tag == "student"
    ensures r == Some(Faculty) <==> tag == "faculty"
    ensures r == Some(Admin) <==> tag == "admin"
    ensures r.None? <==> tag != "student" && tag != "faculty" && tag != "admin"
    ensures r != Some(Lead) && r != Some(Advisor)
  {
    if tag == "student" then Some(Member)
    else if tag == "faculty" then Some(Faculty)
    else if tag == "admin" then Some(Admin)
    else None
  }

  /** Draws of `randbelow(95)` for the four salt characters. */
  predicate ValidDraws(draws: seq<nat>)
  {
    |draws| == SaltLength && forall j :: 0 <= j < |draws| ==> draws[j] < SaltAlphabet
  }

  /** The salt `chr(0x20 + k)` for each draw `k`. */
  function MakeSalt(draws: seq<nat>): (salt: string)
    requires ValidDraws(draws)
    ensures |salt| == SaltLength
    ensures forall j :: 0 <= j < |salt| ==> ' ' <= salt[j] <= '~'
  {
    seq(|draws|, j requires 0 <= j < |draws| => (0x20 + draws[j]) as char)
  }

  /** The stored password: the salt followed by the digest of password + salt. */
  function StoredPassword(password: string, salt: string, H: string -> string): string
  {
    salt + H(password + salt)
  }

  /** `stored[0:4]`, which Python clamps to the string's length. */
  function SaltOf(stored: string): (salt: string)
    ensures |salt| == if |stored| < SaltLength then |stored| else SaltLength
    ensures stored == salt + DigestOf(stored)
  {
    if |stored| < SaltLength then stored else stored[..SaltLength]
  }

  /** `stored[4:]`, empty when the string is shorter. */
  function DigestOf(stored: string): string
  {
    if |stored| < SaltLength then [] else stored[SaltLength..]
  }

  /** A stored password splits back into the salt and the digest it was
      built from. */
  lemma {:induction false} SplitStored(salt: string, digest: string)
    requires |salt| == SaltLength
    ensures SaltOf(salt + digest) == salt
    ensures DigestOf(salt + digest) == digest
  {
    assert (salt + digest)[..SaltLength] == salt;
    assert (salt + digest)[SaltLength..] == digest;
  }

  /** The login entry the bootstrap stores for one roster row; `None` when
      the row's label is not a known role. */
  function MakeLogin(row: LoginRow, salt: string, H: string -> string): (r: Option<LoginRecord>)
    ensures r.Some? <==> RoleOfLabel(row.roleLabel).Some?
    ensures r.Some? ==> r.value.id == row.id && r.value.username == row.username
    ensures r.Some? ==> Some(r.value.role) == RoleOfLabel(row.roleLabel)
    ensures r.Some? && |salt| == SaltLength ==>
              SaltOf(r.value.password) == salt && DigestOf(r.value.password) == H(row.password + salt)
  {
    match RoleOfLabel(row.roleLabel)
    case None => None
    case Some(role) =>
      var entry := LoginRecord(row.id, row.username, StoredPassword(row.password, salt, H), role);
      if |salt| == SaltLength then SplitStored(salt, H(row.password + salt)); Some(entry) else Some(entry)
  }

  /** `ManageApp.login`: the entry under `username` when the digest of
      `password` + its stored salt equals its stored digest, else `None`. */
  function Login(table: map<string, LoginRecord>, username: string, password: string, H: string -> string): (r: Option<LoginRecord>)
    ensures r.Some? <==> username in table &&
                         DigestOf(table[username].password) == H(password + SaltOf(table[username].password))
    ensures r.Some? ==> r.value == table[username]
  {
    if username !in table then None
    else
      var entry := table[username];
      if DigestOf(entry.password) != H(password + SaltOf(entry.password)) then None
      else Some(entry)
  }

  /** An entry the bootstrap built accepts the row's own password, and the
      login leads to the panel of the row's role label. */
  lemma SeedPasswordAccepted(table: map<string, LoginRecord>, u: string, row: LoginRow, draws: seq<nat>, H: string -> string)
    requires ValidDraws(draws)
    requires u in table && Some(table[u]) == MakeLogin(row, MakeSalt(draws), H)
    ensures Login(table, u, row.password, H) == Some(table[u])
    ensures row.roleLabel == "student" ==> PanelFor(table[u].role) == MemberPanel
    ensures row.roleLabel == "faculty" ==> PanelFor(table[u].role) == FacultyPanel
    ensures row.roleLabel == "admin" ==> PanelFor(table[u].role) == AdminPanel
  {
  }

  /** When the digest function does not collide, an entry the bootstrap
      built rejects every password other than the row's own. */
  lemma {:induction false} OtherPasswordRejected(table: map<string, LoginRecord>, u: string, row: LoginRow, draws: seq<nat>, H: string -> string, guess: string)
    requires ValidDraws(draws)
    requires forall a, b :: H(a) == H(b) ==> a == b
    requires u in table && Some(table[u]) == MakeLogin(row, MakeSalt(draws), H)
    requires guess != row.password
    ensures Login(table, u, guess, H) == None
  {
    var salt := MakeSalt(draws);
    if H(guess + salt) == H(row.password + salt) {
      SameSuffixCancels(guess, row.password, salt);
      assert false;
    }
  }

  /** Strings with a common suffix are equal when their concatenations are. */
  lemma SameSuffixCancels(a: string, b: string, suffix: string)
    requires a + suffix == b + suffix
    ensures a == b
  {
    assert a == (a + suffix)[..|a|];
    assert b == (b + suffix)[..|b|];
  }

  /** `first + "." + last[0]`, the login key a person record is looked up
      under; `None` where indexing an empty last name raises `IndexError`. */
  function LoginKey(first: string, last: string): (r: Option<string>)
    ensures r.None? <==> last == []
    ensures r.Some? ==> |r.value| == |first| + 2 && r.value[..|first|] == first
    ensures r.Some? ==> r.value[|first|] == '.' && r.value[|first| + 1] == last[0]
  {
    if last == [] then None else Some(first + "." + [last[0]])
  }

  /** For first names without a dot, the login key determines the first
      name and the initial of the last name. */
  lemma {:induction false} LoginKeyDetermines(f1: string, l1: string, f2: string, l2: string)
    requires '.' !in f1 && '.' !in f2
    requires LoginKey(f1, l1).Some? && LoginKey(f1, l1) == LoginKey(f2, l2)
    ensures f1 == f2 && l1[0] == l2[0]
  {
    var k := LoginKey(f1, l1).value;
    if |f1| < |f2| {
      assert false;
    } else if |f2| < |f1| {
      assert false;
    }
  }

  /** Two people who share a first name and a last initial share a login
      key, so they are looked up under the same login entry. */
  lemma LoginKeyShared(f: string, l1: string, l2: string)
    requires l1 != [] && l2 != [] && l1[0] == l2[0]
    ensures LoginKey(f, l1) == LoginKey(f, l2)
  {
  }

  /** An instance: Ada Lovelace and Ada Lamb both log in as `"Ada.L"`, with
      the case kept. */
  lemma LoginKeyCollides()
    ensures LoginKey("Ada", "Lovelace") == LoginKey("Ada", "Lamb") == Some("Ada.L")
  {
    assert "Lovelace"[0] == "Lamb"[0] == 'L';
    assert "Ada" + "." + ['L'] == "Ada.L";
  }

  /** The outcome of the bootstrap loop over the login roster. */
  datatype Bootstrapped = Built(table: map<string, LoginRecord>) | UnknownLabel(key: string)

  /** The bootstrap loop: every roster row is replaced by its login entry,
      salted with that row's draws. A row with an unknown label stops the
      loop (the `KeyError` aborts start-up). */
  method BootstrapLogins(rows: map<string, LoginRow>, draws: map<string, seq<nat>>, H: string -> string) returns (r: Bootstrapped)
    requires forall k :: k in rows ==> k in draws && ValidDraws(draws[k])
    ensures r.Built? <==> forall k :: k in rows ==> RoleOfLabel(rows[k].roleLabel).Some?
    ensures r.Built? ==> r.table.Keys == rows.Keys
    ensures r.Built? ==> forall k :: k in rows ==> Some(r.table[k]) == MakeLogin(rows[k], MakeSalt(draws[k]), H)
    ensures r.UnknownLabel? ==> r.key in rows && RoleOfLabel(rows[r.key].roleLabel).None?
  {
    var pending := rows.Keys;
    var built: map<string, LoginRecord> := map[];
    while pending != {}
      invariant pending <= rows.Keys
      invariant built.Keys == rows.Keys - pending
      invariant forall k :: k in built ==> Some(built[k]) == MakeLogin(rows[k], MakeSalt(draws[k]), H)
      decreases pending
    {
      var k :| k in pending;
      var salt := MakeSalt(draws[k]);
      var entry := MakeLogin(rows[k], salt, H);
      if entry.None? {
        return UnknownLabel(k);
      }
      built := built[k := entry.value];
      pending := pending - {k};
    }
    return Built(built);
  }

  /** Every entry of a completed bootstrap has a four-character printable
      salt and accepts its row's password. */
  lemma BootstrappedEntry(rows: map<string, LoginRow>, draws: map<string, seq<nat>>, H: string -> string, table: map<string, LoginRecord>, k: string)
    requires forall k :: k in rows ==> k in draws && ValidDraws(draws[k])
    requires table.Keys == rows.Keys
    requires forall k :: k in rows ==> Some(table[k]) == MakeLogin(rows[k], MakeSalt(draws[k]), H)
    requires k in table
    ensures |SaltOf(table[k].password)| == SaltLength
    ensures forall j :: 0 <= j < SaltLength ==> ' ' <= SaltOf(table[k].password)[j] <= '~'
    ensures Login(table, k, rows[k].password, H) == Some(table[k])
  {
    SeedPasswordAccepted(table, k, rows[k], draws[k], H);
  }
}
