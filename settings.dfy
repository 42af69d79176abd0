/** The installer's configuration record: a string-keyed mapping whose values
    are strings, booleans, `None`, lists of strings or the nested map of user
    accounts, and the ways the installer reads and masks it. */
module Settings {
  import opened Options

  /** One account as `configure_users` stores it under `config['users']`. */
  datatype UserRec = UserRec(password: string, sudo: bool, groups: seq<string>, shell: string)

  /** One key of the users map, kept in insertion order. */
  datatype UserEntry = UserEntry(name: string, rec: UserRec)

  datatype Value =
    | Str(s: string)
    | Flag(b: bool)
    | Null
    | List(items: seq<string>)
    | UserMap(entries: seq<UserEntry>)

  /** The configuration keys the installer reads or writes; each stands for
      the JSON key spelled in snake case (`Disk` is `disk`, `SwapSize` is
      `swap_size`, `Users` is `users`). */
  datatype Key =
    | DesktopEnvironment | AnimationsEnabled
    | NetworkConfigured | NetworkType | NetworkInterface | WifiSsid | WifiPassword
    | NetworkIp | NetworkGateway | NetworkDns
    | Disk | PartitionScheme | SwapSize | HomeSize | Filesystem
    | BtrfsCompression | BtrfsSnapshots | EncryptionPassword
    | Hostname | Timezone | Locale | Keymap
    | RootPassword | DisableRoot | Users
    | HyprlandTheme | HyprlandAnimations | DisplayManager
    | DevLanguages | Editors | Terminal | InstallDocker | DevTools
    | Browser | InstallDiscord | FileManager | MediaApps
    | Bootloader | Microcode | NetworkManager | EnableFirewall | EnableBluetooth | AurHelper
    | EfiPartition | RootPartition | SwapPartition | HomePartition | EncryptedRoot | FormattedRoot

  type Config = map<Key, Value>

  /** The token that replaces a secret in a masked view. */
  const Mask: string := "***"

  /** Python truthiness of a value. */
  predicate Truthy(v: Value) {
    match v
    case Str(s) => s != ""
    case Flag(b) => b
    case Null => false
    case List(items) => items != []
    case UserMap(entries) => entries != []
  }

  /** `config.get(k)`. */
  function Get(c: Config, k: Key): Value {
    if k in c then c[k] else Null
  }

  /** `if config.get(k):`. */
  predicate Enabled(c: Config, k: Key) {
    Truthy(Get(c, k))
  }

  /** `config[k]` used as a string: a missing key raises `KeyError`, and a
      value of another type is taken to raise as well. */
  function Required(c: Config, k: Key): (r: Option<string>)
    ensures r.Some? <==> k in c && c[k].Str?
    ensures r.Some? ==> r.value == c[k].s
  {
    if k in c && c[k].Str? then Some(c[k].s) else None
  }

  /** `config.get(k, d)` used as a string. */
  function StrOr(c: Config, k: Key, d: string): (r: Option<string>)
    ensures k !in c ==> r == Some(d)
    ensures k in c ==> r == Required(c, k)
  {
    if k !in c then Some(d) else Required(c, k)
  }

  /** `config.get(k, [])` used as a list of strings. */
  function ListOr(c: Config, k: Key): (r: Option<seq<string>>)
    ensures k !in c ==> r == Some([])
    ensures k in c ==> (r.Some? <==> c[k].List?)
    ensures k in c && c[k].List? ==> r == Some(c[k].items)
  {
    if k !in c then Some([]) else if c[k].List? then Some(c[k].items) else None
  }

  /** `config.get(k) == s`. */
  predicate Is(c: Config, k: Key, s: string) {
    k in c && c[k] == Str(s)
  }

  /** The two keys `__init__` puts in a fresh configuration. */
  function InitialConfig(): (c: Config)
    ensures c.Keys == {DesktopEnvironment, AnimationsEnabled}
    ensures Is(c, DesktopEnvironment, "hyprland") && c[AnimationsEnabled] == Flag(true)
  {
    map[DesktopEnvironment := Str("hyprland"), AnimationsEnabled := Flag(true)]
  }

  /** Every user's password replaced by the mask, everything else kept. */
  function MaskEntries(es: seq<UserEntry>): (r: seq<UserEntry>)
    ensures |r| == |es|
    ensures forall i :: 0 <= i < |r| ==> r[i] == UserEntry(es[i].name, es[i].rec.(password := Mask))
  {
    if es == [] then [] else [UserEntry(es[0].name, es[0].rec.(password := Mask))] + MaskEntries(es[1..])
  }

  /** A `users` value the masking loop can walk: a users map, or an empty
      string or list (nothing to iterate). Any other value makes
      `safe_config['users'][user]` raise. */
  predicate Walkable(v: Value) {
    v.UserMap? || v == Str("") || v == List([])
  }

  /** The keys whose values are secrets. */
  predicate SecretKey(k: Key) {
    k == RootPassword || k == EncryptionPassword || k == WifiPassword || k == Users
  }

  /** A view in which no secret survives: the root and wifi passwords are the
      mask, the encryption password is the mask or `None`, and every user's
      password is the mask. */
  predicate SecretsHidden(c: Config) {
    (RootPassword in c ==> c[RootPassword] == Str(Mask))
    && (WifiPassword in c ==> c[WifiPassword] == Str(Mask))
    && (EncryptionPassword in c ==> c[EncryptionPassword] in {Str(Mask), Null})
    && (Users in c && c[Users].UserMap? ==>
          forall i :: 0 <= i < |c[Users].entries| ==> c[Users].entries[i].rec.password == Mask)
  }

  /** The effect of the masking loop on the nested user maps: the copy made by
      `dict.copy()` shares them with the live configuration, so this is also
      what happens to the live configuration. */
  function UsersMasked(c: Config): (r: Config)
    requires Users in c ==> Walkable(c[Users])
    ensures r.Keys == c.Keys
    ensures forall k :: k in c && k != Users ==> r[k] == c[k]
    ensures Users in c && c[Users].UserMap? ==>
      r[Users] == UserMap(MaskEntries(c[Users].entries))
    ensures Users in c && !c[Users].UserMap? ==> r == c
  {
    if Users in c && c[Users].UserMap? then c[Users := UserMap(MaskEntries(c[Users].entries))]
    else c
  }

  /** The masked view `save_config` and `display_config` build: the top-level
      secrets are replaced in the copy and the users' passwords in the nested
      maps. */
  function Masked(c: Config): (r: Config)
    requires Users in c ==> Walkable(c[Users])
    ensures r.Keys == c.Keys
    ensures SecretsHidden(r)
    ensures forall k :: k in c && !SecretKey(k) ==> r[k] == c[k]
    ensures EncryptionPassword in c ==>
      (r[EncryptionPassword] == Str(Mask) <==> Truthy(c[EncryptionPassword]))
  {
    MaskTop(UsersMasked(c))
  }

  /** The three top-level replacements of the masking code: the root and
      wifi passwords become the mask, the encryption password the mask when
      it is set and `None` otherwise. */
  function MaskTop(u: Config): (r: Config)
    ensures r.Keys == u.Keys
    ensures forall k :: k in u && k != RootPassword && k != EncryptionPassword && k != WifiPassword ==> r[k] == u[k]
    ensures RootPassword in u ==> r[RootPassword] == Str(Mask)
    ensures WifiPassword in u ==> r[WifiPassword] == Str(Mask)
    ensures EncryptionPassword in u ==>
      r[EncryptionPassword] == if Truthy(u[EncryptionPassword]) then Str(Mask) else Null
  {
    var a := if RootPassword in u then u[RootPassword := Str(Mask)] else u;
    var b := if EncryptionPassword in a
             then a[EncryptionPassword := if Truthy(a[EncryptionPassword]) then Str(Mask) else Null]
             else a;
    if WifiPassword in b then b[WifiPassword := Str(Mask)] else b
  }

  /** Masking twice is masking once: a view that is already masked is left
      alone. */
  lemma MaskedIdempotent(c: Config)
    requires Users in c ==> Walkable(c[Users])
    ensures Users in Masked(c) ==> Walkable(Masked(c)[Users])
    ensures Masked(Masked(c)) == Masked(c)
  {
    var m := Masked(c);
    assert Users in m ==> Walkable(m[Users]) by {
      if Users in m && !m[Users].UserMap? {
        assert m[Users] == c[Users];
      }
    }
    MaskedFixed(m);
  }

  /** A view with every secret hidden is its own masked view. */
  lemma MaskedFixed(m: Config)
    requires Users in m ==> Walkable(m[Users])
    requires SecretsHidden(m)
    ensures Masked(m) == m
  {
    var u := UsersMasked(m);
    if Users in m && m[Users].UserMap? {
      MaskEntriesFixed(m[Users].entries);
      assert u[Users] == m[Users];
    }
    assert u == m;
    MaskTopFixed(m);
  }

  lemma MaskTopFixed(u: Config)
    requires RootPassword in u ==> u[RootPassword] == Str(Mask)
    requires WifiPassword in u ==> u[WifiPassword] == Str(Mask)
    requires EncryptionPassword in u ==> u[EncryptionPassword] in {Str(Mask), Null}
    ensures MaskTop(u) == u
  {
    var r := MaskTop(u);
    forall k | k in u
      ensures r[k] == u[k]
    {
      if k == EncryptionPassword {
        assert Truthy(Str(Mask)) && !Truthy(Null);
      }
    }
  }

  lemma MaskEntriesFixed(es: seq<UserEntry>)
    requires forall i :: 0 <= i < |es| ==> es[i].rec.password == Mask
    ensures MaskEntries(es) == es
  {
    var r := MaskEntries(es);
    forall i | 0 <= i < |es|
      ensures r[i] == es[i]
    {
      assert es[i].rec.(password := Mask) == es[i].rec;
    }
  }

  /** Masking the users a second time changes nothing: the saved
      configuration is the one the summary left. */
  lemma UsersMaskedIdempotent(c: Config)
    requires Users in c ==> Walkable(c[Users])
    ensures Users in UsersMasked(c) ==> Walkable(UsersMasked(c)[Users])
    ensures UsersMasked(UsersMasked(c)) == UsersMasked(c)
  {
    if Users in c && c[Users].UserMap? {
      MaskEntriesFixed(MaskEntries(c[Users].entries));
    }
  }

  /** The masked view differs from the configuration only in its secrets, so
      a configuration without secrets is shown as it is. */
  lemma MaskedNoSecrets(c: Config)
    requires RootPassword !in c && EncryptionPassword !in c
    requires WifiPassword !in c && Users !in c
    ensures Masked(c) == c
  {
    var m := Masked(c);
    forall k | k in c
      ensures m[k] == c[k]
    {
      assert !SecretKey(k);
    }
  }
}
