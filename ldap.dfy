/**
  Helpers that read LDAP directory attributes. An entry's attributes are a
  map from attribute id to the attribute's values in order, where a value
  may be null (`None`). The `required` flag of the source only chooses
  whether a missing attribute is logged, so it does not appear here.
 */
module LdapUtils {
  import opened Common

  type Attributes = map<string, seq<Option<string>>>

  /** A call that returns a value or throws. */
  datatype Outcome<T> = Returns(value: T) | Throws

  /** The global roles of an OpenEMS user. */
  datatype Role = Admin | Installer | Owner | Guest

  /** The level of each role, as the OpenEMS `Role` enum defines it: the
      lower the level, the more the role may do. */
  function Level(r: Role): nat {
    match r
    case Admin => 0
    case Installer => 1
    case Owner => 2
    case Guest => 3
  }

  lemma LevelInjective(a: Role, b: Role)
    ensures Level(a) == Level(b) ==> a == b
  {
  }

  /** The single-valued lookup: `None` (null) for a missing attribute, else
      the attribute's first value, which itself may be null. An attribute
      present with no value at all makes `Attribute.get` throw. */
  function ExtractValue(attributes: Attributes, attributeId: string): (r: Outcome<Option<string>>)
    ensures attributeId !in attributes ==> r == Returns(None)
    ensures attributeId in attributes && attributes[attributeId] == [] ==> r.Throws?
    ensures attributeId in attributes && attributes[attributeId] != [] ==>
      r == Returns(attributes[attributeId][0])
  {
    if attributeId !in attributes then Returns(None)
    else if attributes[attributeId] == [] then Throws
    else Returns(attributes[attributeId][0])
  }

  /** The lookup with a default, used when the lookup gives null. */
  function ExtractValueOr(attributes: Attributes, attributeId: string, defaultValue: Option<string>)
    : (r: Outcome<Option<string>>)
    ensures ExtractValue(attributes, attributeId).Throws? <==> r.Throws?
    ensures r.Returns? && ExtractValue(attributes, attributeId).value.Some? ==>
      r == ExtractValue(attributes, attributeId)
    ensures r.Returns? && ExtractValue(attributes, attributeId).value.None? ==> r == Returns(defaultValue)
  {
    match ExtractValue(attributes, attributeId)
    case Throws => Throws
    case Returns(v) => if v.None? then Returns(defaultValue) else Returns(v)
  }

  /** The values of a list that are not null, in order. */
  function NonNull(values: seq<Option<string>>): (r: seq<string>)
    ensures |r| <= |values|
    ensures forall v :: v in r <==> Some(v) in values
  {
    if values == [] then []
    else (if values[0].Some? then [values[0].value] else []) + NonNull(values[1..])
  }

  /** Dropping nulls keeps the order: it distributes over concatenation. */
  lemma {:induction false} NonNullAppend(a: seq<Option<string>>, b: seq<Option<string>>)
    ensures NonNull(a + b) == NonNull(a) + NonNull(b)
  {
    if a == [] {
      assert a + b == b;
    } else {
      assert (a + b)[1..] == a[1..] + b;
      NonNullAppend(a[1..], b);
    }
  }

  /** A list without nulls is kept whole. */
  lemma {:induction false} NonNullOfDefined(values: seq<string>)
    ensures NonNull(seq(|values|, i requires 0 <= i < |values| => Some(values[i]))) == values
  {
    if values != [] {
      var wrapped := seq(|values|, i requires 0 <= i < |values| => Some(values[i]));
      assert wrapped[1..] == seq(|values| - 1, i requires 0 <= i < |values| - 1 => Some(values[1..][i]));
      NonNullOfDefined(values[1..]);
    }
  }

  /** `extractValuesFromAttributes`: null for a missing attribute, else every
      value that is not null, in order. */
  method ExtractValuesFromAttributes(attributes: Attributes, attributeId: string)
    returns (r: Option<seq<string>>)
    ensures attributeId !in attributes ==> r == None
    ensures attributeId in attributes ==> r == Some(NonNull(attributes[attributeId]))
  {
    if attributeId !in attributes {
      return None;
    }
    var all := attributes[attributeId];
    var values: seq<string> := [];
    var i := 0;
    while i < |all|
      invariant 0 <= i <= |all|
      invariant values == NonNull(all[..i])
    {
      var value := all[i];
      NonNullAppend(all[..i], [value]);
      assert all[..i + 1] == all[..i] + [value];
      if value.Some? {
        values := values + [value.value];
      }
      i := i + 1;
    }
    assert all[..i] == all;
    return Some(values);
  }

  /** The role of the group key with the lowest level among `keys` that the
      role map knows; `None` when it knows none of them. */
  function BestRole(keys: seq<string>, roleMap: map<string, Role>): (r: Option<Role>)
    ensures r.None? <==> forall k :: k in keys ==> k !in roleMap
    ensures r.Some? ==> exists k :: k in keys && k in roleMap && roleMap[k] == r.value
    ensures r.Some? ==> forall k :: k in keys && k in roleMap ==> Level(r.value) <= Level(roleMap[k])
  {
    if keys == [] then None
    else
      var rest := BestRole(keys[1..], roleMap);
      if keys[0] !in roleMap then rest
      else if rest.None? || Level(roleMap[keys[0]]) <= Level(rest.value) then Some(roleMap[keys[0]])
      else rest
  }

  /** `extractGlobalRole`: null without a role map or with an empty one, null
      when the attribute is missing or has no value, else the role of the
      lowest level among the groups the role map knows. */
  function ExtractGlobalRole(attributes: Attributes, attributeId: string, roleMap: Option<map<string, Role>>)
    : (r: Option<Role>)
    ensures r.None? <==>
      (roleMap.None? || roleMap.value == map[] || attributeId !in attributes ||
       forall k :: k in NonNull(attributes[attributeId]) ==> k !in roleMap.value)
    ensures r.Some? ==> (exists k :: k in NonNull(attributes[attributeId]) && k in roleMap.value && roleMap.value[k] == r.value)
    ensures r.Some? ==> (forall k :: k in NonNull(attributes[attributeId]) && k in roleMap.value ==>
      Level(r.value) <= Level(roleMap.value[k]))
  {
    if roleMap.None? || roleMap.value == map[] then None
    else if attributeId !in attributes then None
    else
      var values := NonNull(attributes[attributeId]);
      if values == [] then None else BestRole(values, roleMap.value)
  }

  /** A listed group whose role is at least as powerful as that of every
      other listed known group decides the role. */
  lemma MostPowerfulGroupWins(attributes: Attributes, attributeId: string, roleMap: map<string, Role>, key: string)
    requires attributeId in attributes && key in NonNull(attributes[attributeId]) && key in roleMap
    requires forall k :: k in NonNull(attributes[attributeId]) && k in roleMap ==> Level(roleMap[key]) <= Level(roleMap[k])
    ensures ExtractGlobalRole(attributes, attributeId, Some(roleMap)) == Some(roleMap[key])
  {
    var r := ExtractGlobalRole(attributes, attributeId, Some(roleMap));
    assert roleMap != map[];
    assert r.Some?;
    LevelInjective(r.value, roleMap[key]);
  }

  /** The chosen role depends only on which groups are listed, not on their
      order or repetition. */
  lemma BestRoleIgnoresOrder(a: seq<string>, b: seq<string>, roleMap: map<string, Role>)
    requires forall k :: k in a <==> k in b
    ensures BestRole(a, roleMap) == BestRole(b, roleMap)
  {
    var ra := BestRole(a, roleMap);
    var rb := BestRole(b, roleMap);
    if ra.Some? && rb.Some? {
      var ka :| ka in a && ka in roleMap && roleMap[ka] == ra.value;
      var kb :| kb in b && kb in roleMap && roleMap[kb] == rb.value;
      assert Level(ra.value) <= Level(rb.value);
      assert Level(rb.value) <= Level(ra.value);
      LevelInjective(ra.value, rb.value);
    }
  }

  /** The role map built from the four group names, as a user service
      configures it. */
  function GroupRoles(guestOu: string, ownerOu: string, installerOu: string, adminOu: string)
    : (m: map<string, Role>)
    ensures m.Keys == {guestOu, ownerOu, installerOu, adminOu}
    ensures m[adminOu] == Admin
    ensures installerOu != adminOu ==> m[installerOu] == Installer
    ensures ownerOu != installerOu && ownerOu != adminOu ==> m[ownerOu] == Owner
    ensures guestOu != ownerOu && guestOu != installerOu && guestOu != adminOu ==> m[guestOu] == Guest
  {
    map[guestOu := Guest][ownerOu := Owner][installerOu := Installer][adminOu := Admin]
  }

  /** Membership of one group gives that group's role; without a role map,
      with an empty one or without the attribute there is no role. */
  lemma SingleGroup(id: string, guest: string, owner: string, installer: string, admin: string)
    requires guest != owner && guest != installer && guest != admin && owner != installer && owner != admin
    requires installer != admin
    ensures var m := GroupRoles(guest, owner, installer, admin);
      ExtractGlobalRole(map[id := [Some(guest)]], id, Some(m)) == Some(Guest) &&
      ExtractGlobalRole(map[id := [Some(owner)]], id, Some(m)) == Some(Owner) &&
      ExtractGlobalRole(map[id := [Some(installer)]], id, Some(m)) == Some(Installer) &&
      ExtractGlobalRole(map[id := [Some(admin)]], id, Some(m)) == Some(Admin)
    ensures ExtractGlobalRole(map[id := [Some(guest)]], id, None) == None
    ensures ExtractGlobalRole(map[id := [Some(guest)]], id, Some(map[])) == None
    ensures ExtractGlobalRole(map[], id, Some(GroupRoles(guest, owner, installer, admin))) == None
  {
    var m := GroupRoles(guest, owner, installer, admin);
    MostPowerfulGroupWins(map[id := [Some(guest)]], id, m, guest);
    MostPowerfulGroupWins(map[id := [Some(owner)]], id, m, owner);
    MostPowerfulGroupWins(map[id := [Some(installer)]], id, m, installer);
    MostPowerfulGroupWins(map[id := [Some(admin)]], id, m, admin);
  }

  /** Membership of several groups gives the most powerful of their roles:
      guest and owner give owner, adding installer gives installer, adding
      admin gives admin. */
  lemma MultipleGroups(id: string, guest: string, owner: string, installer: string, admin: string)
    requires guest != owner && guest != installer && guest != admin && owner != installer && owner != admin
    requires installer != admin
    ensures var m := GroupRoles(guest, owner, installer, admin);
      ExtractGlobalRole(map[id := [Some(guest), Some(owner)]], id, Some(m)) == Some(Owner) &&
      ExtractGlobalRole(map[id := [Some(guest), Some(owner), Some(installer)]], id, Some(m)) == Some(Installer) &&
      ExtractGlobalRole(map[id := [Some(guest), Some(owner), Some(installer), Some(admin)]], id, Some(m)) == Some(Admin)
  {
    OwnerOverGuest(id, guest, owner, installer, admin);
    InstallerOverOwner(id, guest, owner, installer, admin);
    AdminOverAll(id, guest, owner, installer, admin);
  }

  lemma OwnerOverGuest(id: string, guest: string, owner: string, installer: string, admin: string)
    requires guest != owner && guest != installer && guest != admin && owner != installer && owner != admin
    requires installer != admin
    ensures ExtractGlobalRole(map[id := [Some(guest), Some(owner)]], id,
      Some(GroupRoles(guest, owner, installer, admin))) == Some(Owner)
  {
    var m := GroupRoles(guest, owner, installer, admin);
    MostPowerfulGroupWins(map[id := [Some(guest), Some(owner)]], id, m, owner);
  }

  lemma InstallerOverOwner(id: string, guest: string, owner: string, installer: string, admin: string)
    requires guest != owner && guest != installer && guest != admin && owner != installer && owner != admin
    requires installer != admin
    ensures ExtractGlobalRole(map[id := [Some(guest), Some(owner), Some(installer)]], id,
      Some(GroupRoles(guest, owner, installer, admin))) == Some(Installer)
  {
    var m := GroupRoles(guest, owner, installer, admin);
    MostPowerfulGroupWins(map[id := [Some(guest), Some(owner), Some(installer)]], id, m, installer);
  }

  lemma AdminOverAll(id: string, guest: string, owner: string, installer: string, admin: string)
    requires guest != owner && guest != installer && guest != admin && owner != installer && owner != admin
    requires installer != admin
    ensures ExtractGlobalRole(map[id := [Some(guest), Some(owner), Some(installer), Some(admin)]], id,
      Some(GroupRoles(guest, owner, installer, admin))) == Some(Admin)
  {
    var m := GroupRoles(guest, owner, installer, admin);
    MostPowerfulGroupWins(map[id := [Some(guest), Some(owner), Some(installer), Some(admin)]], id, m, admin);
  }

  /** A group the map does not know, or a null value, is ignored; with no
      known group there is no role. */
  lemma UnknownGroupsIgnored(id: string, guest: string, owner: string, installer: string, admin: string, other: string)
    requires other !in {guest, owner, installer, admin}
    requires guest != owner && guest != installer && guest != admin
    ensures var m := GroupRoles(guest, owner, installer, admin);
      ExtractGlobalRole(map[id := [Some(other)]], id, Some(m)) == None &&
      ExtractGlobalRole(map[id := [Some(other), None, Some(guest)]], id, Some(m)) == Some(Guest)
  {
    var m := GroupRoles(guest, owner, installer, admin);
    MostPowerfulGroupWins(map[id := [Some(other), None, Some(guest)]], id, m, guest);
  }
}

/**
  The LDAP user service: it authenticates a user by binding to the
  directory with a principal built from a template, then reads the user's
  id, name and global role from the user's entry. The directory is passed
  in as two functions: `bind(principal, credentials)` says whether the bind
  succeeds (a failed or unreachable bind is `false`), and `search(filter)`
  gives the attributes of the first entry the filter finds, if any.
 */
module LdapUserService {
  import opened Common
  import opened LdapUtils

  const Placeholder: string := "%%username%%"

  /** `\w` of Java regular expressions: an ASCII letter, digit or underscore. */
  predicate IsWordChar(c: char) {
    'a' <= c <= 'z' || 'A' <= c <= 'Z' || '0' <= c <= '9' || c == '_'
  }

  /** `\s`: space, tab, line feed, vertical tab, form feed or carriage return. */
  predicate IsSpaceChar(c: char) {
    c == ' ' || c == '\t' || c == '\n' || c == '\U{B}' || c == '\U{C}' || c == '\r'
  }

  /** `validateUsername`: the whole name matches `[\w\s]*`. */
  predicate ValidUsername(s: string) {
    forall i :: 0 <= i < |s| ==> IsWordChar(s[i]) || IsSpaceChar(s[i])
  }

  /** `validateCredentials`: the whole password matches `[\w]*`. */
  predicate ValidCredentials(s: string) {
    forall i :: 0 <= i < |s| ==> IsWordChar(s[i])
  }

  /** A username that passes validation carries none of the characters that
      have a meaning in an LDAP distinguished name or search filter, nor the
      placeholder's `%`. */
  lemma ValidUsernameIsInert(s: string)
    requires ValidUsername(s)
    ensures forall c :: c in "()*\\=,+<>;#\"%\U{0}" ==> c !in s
  {
  }

  /** Every password that passes validation is a valid username too, and the
      empty string passes both. */
  lemma CredentialsAreStricter(s: string)
    ensures ValidCredentials(s) ==> ValidUsername(s)
    ensures ValidUsername("") && ValidCredentials("")
  {
  }

  /** Java's `String.replace`: every occurrence of `pattern`, from left to
      right and without overlap, replaced by `replacement`. */
  function Replace(s: string, pattern: string, replacement: string): (r: string)
    requires pattern != []
    decreases |s|
  {
    if |s| < |pattern| then s
    else if s[..|pattern|] == pattern then replacement + Replace(s[|pattern|..], pattern, replacement)
    else [s[0]] + Replace(s[1..], pattern, replacement)
  }

  /** Text without the pattern's first character is copied unchanged. */
  lemma {:induction false} ReplaceAfterPlainText(a: string, b: string, pattern: string, replacement: string)
    requires pattern != [] && pattern[0] !in a
    ensures Replace(a + b, pattern, replacement) == a + Replace(b, pattern, replacement)
  {
    if a != [] {
      if |a + b| >= |pattern| {
        assert (a + b)[..|pattern|][0] == a[0];
      }
      assert (a + b)[1..] == a[1..] + b;
      ReplaceAfterPlainText(a[1..], b, pattern, replacement);
    } else {
      assert a + b == b;
    }
  }

  /** The pattern at the start is replaced. */
  lemma ReplaceAtPattern(b: string, pattern: string, replacement: string)
    requires pattern != []
    ensures Replace(pattern + b, pattern, replacement) == replacement + Replace(b, pattern, replacement)
  {
    assert (pattern + b)[..|pattern|] == pattern;
    assert (pattern + b)[|pattern|..] == b;
  }

  /** A template without the pattern's first character is left as it is. */
  lemma TemplateWithoutPlaceholder(template: string, replacement: string)
    requires '%' !in template
    ensures Replace(template, Placeholder, replacement) == template
  {
    ReplaceAfterPlainText(template, [], Placeholder, replacement);
    assert template + [] == template;
    assert Replace([], Placeholder, replacement) == [];
  }

  /** A principal template with one placeholder between plain text becomes
      that text around the username. */
  lemma PrincipalOfTemplate(prefix: string, suffix: string, username: string)
    requires '%' !in prefix && '%' !in suffix
    ensures Replace(prefix + Placeholder + suffix, Placeholder, username) == prefix + username + suffix
  {
    ReplaceAfterPlainText(prefix, Placeholder + suffix, Placeholder, username);
    assert prefix + Placeholder + suffix == prefix + (Placeholder + suffix);
    ReplaceAtPattern(suffix, Placeholder, username);
    TemplateWithoutPlaceholder(suffix, username);
  }

  /** A user as the service reads it; the language value is not kept. */
  datatype User = User(id: string, name: Option<string>, globalRole: Role)

  /** `registerAdminUser`: users are managed in the directory, so the call
      always throws. */
  function RegisterAdminUser(setupKey: string, username: string, password: string): (r: Outcome<()>)
    ensures r.Throws?
  {
    Throws
  }

  class UserService {
    var active: bool
    var principalTemplate: Option<string>
    var usersOuFilter: Option<string>
    var roleMap: Option<map<string, Role>>

    ghost predicate Valid()
      reads this
    {
      active ==> principalTemplate.Some? && usersOuFilter.Some? && roleMap.Some?
    }

    /** The service starts inactive. */
    constructor ()
      ensures Valid() && !active
    {
      active := false;
      principalTemplate := None;
      usersOuFilter := None;
      roleMap := None;
    }

    /** `activate`: keeps the templates, maps the four group names to their
        roles (a later group wins on a repeated name) and becomes active. */
    method Activate(principalTemplate: string, usersOuFilter: string,
                    guestOu: string, ownerOu: string, installerOu: string, adminOu: string)
      modifies this
      ensures Valid() && active
      ensures this.principalTemplate == Some(principalTemplate)
      ensures this.usersOuFilter == Some(usersOuFilter)
      ensures roleMap == Some(GroupRoles(guestOu, ownerOu, installerOu, adminOu))
    {
      this.principalTemplate := Some(principalTemplate);
      this.usersOuFilter := Some(usersOuFilter);
      var m: map<string, Role> := map[];
      m := m[guestOu := Guest];
      m := m[ownerOu := Owner];
      m := m[installerOu := Installer];
      m := m[adminOu := Admin];
      roleMap := Some(m);
      active := true;
    }

    /** `deactivate`: forgets the configuration and becomes inactive. */
    method Deactivate()
      modifies this
      ensures Valid() && !active
      ensures principalTemplate.None? && usersOuFilter.None? && roleMap.None?
    {
      principalTemplate := None;
      usersOuFilter := None;
      roleMap := None;
      active := false;
    }

    /** `authenticateAgainstLdap`: names or passwords with other characters
        are refused before the directory is asked; otherwise the bind of
        the principal built from the template decides. */
    function AuthenticateAgainstLdap(username: string, credentials: string, bind: (string, string) -> bool)
      : (ok: bool)
      requires Valid() && active
      reads this
      ensures !ValidUsername(username) || !ValidCredentials(credentials) ==> !ok
      ensures ok <==> (ValidUsername(username) && ValidCredentials(credentials) &&
        bind(Replace(principalTemplate.value, Placeholder, username), credentials))
    {
      if !(ValidUsername(username) && ValidCredentials(credentials)) then false
      else bind(Replace(principalTemplate.value, Placeholder, username), credentials)
    }

    /** `readUser`: searches with the filter built from the template; no
        user without an entry, without a `uid` or without a known group.
        The display name defaults to the id. The language attribute is read
        (and may throw) before the group, but its value is not kept. */
    function ReadUser(username: string, search: string -> Option<Attributes>): (r: Outcome<Option<User>>)
      requires Valid() && active
      reads this
      ensures r.Returns? && r.value.Some? ==>
        var entry := search(Replace(usersOuFilter.value, Placeholder, username));
        entry.Some? &&
        ExtractValue(entry.value, "uid") == Returns(Some(r.value.value.id)) &&
        ExtractGlobalRole(entry.value, "memberOf", roleMap) == Some(r.value.value.globalRole) &&
        ExtractValue(entry.value, "displayName").Returns? &&
        ExtractValue(entry.value, "preferredLanguage").Returns? &&
        r.value.value.name == (if ExtractValue(entry.value, "displayName").value.Some?
                               then ExtractValue(entry.value, "displayName").value
                               else Some(r.value.value.id))
      // an entry with a `uid`, a readable display name and language, and a known group gives its user
      ensures var entry := search(Replace(usersOuFilter.value, Placeholder, username));
        entry.Some? && ExtractValue(entry.value, "uid").Returns? && ExtractValue(entry.value, "uid").value.Some? &&
        ExtractValue(entry.value, "displayName").Returns? &&
        ExtractValue(entry.value, "preferredLanguage").Returns? &&
        ExtractGlobalRole(entry.value, "memberOf", roleMap).Some? ==>
        var id := ExtractValue(entry.value, "uid").value.value;
        var displayName := ExtractValue(entry.value, "displayName").value;
        r == Returns(Some(User(id, if displayName.Some? then displayName else Some(id),
                               ExtractGlobalRole(entry.value, "memberOf", roleMap).value)))
      // only an unreadable `uid`, or with a `uid` an unreadable display name or language, throws
      ensures var entry := search(Replace(usersOuFilter.value, Placeholder, username));
        (r.Throws? <==>
           entry.Some? && (ExtractValue(entry.value, "uid").Throws? ||
             (ExtractValue(entry.value, "uid").value.Some? &&
              (ExtractValue(entry.value, "displayName").Throws? ||
               ExtractValue(entry.value, "preferredLanguage").Throws?))))
    {
      var entry := search(Replace(usersOuFilter.value, Placeholder, username));
      if entry.None? then Returns(None)
      else
        match ExtractValue(entry.value, "uid")
        case Throws => Throws
        case Returns(id) =>
          if id.None? then Returns(None)
          else
            match ExtractValueOr(entry.value, "displayName", id)
            case Throws => Throws
            case Returns(name) =>
              match ExtractValue(entry.value, "preferredLanguage")
              case Throws => Throws
              case Returns(_) =>
                var role := ExtractGlobalRole(entry.value, "memberOf", roleMap);
                if role.None? then Returns(None)
                else Returns(Some(User(id.value, name, role.value)))
    }

    /** `authenticate(username, credentials)`: nothing while inactive or when
        the bind fails, else the user read from the directory. */
    function Authenticate(username: string, credentials: string,
                          bind: (string, string) -> bool, search: string -> Option<Attributes>)
      : (r: Outcome<Option<User>>)
      requires Valid()
      reads this
      ensures !active ==> r == Returns(None)
      ensures !ValidUsername(username) || !ValidCredentials(credentials) ==> r == Returns(None)
      ensures r.Returns? && r.value.Some? ==>
        active && bind(Replace(principalTemplate.value, Placeholder, username), credentials) &&
        r.value.value.globalRole in roleMap.value.Values
      ensures active ==>
        r == if AuthenticateAgainstLdap(username, credentials, bind) then ReadUser(username, search)
             else Returns(None)
    {
      if !active then Returns(None)
      else if AuthenticateAgainstLdap(username, credentials, bind) then ReadUser(username, search)
      else Returns(None)
    }

    /** `authenticate(password)`: a password alone never identifies a user. */
    function AuthenticateByPassword(password: string): (r: Option<User>)
      ensures r.None?
    {
      None
    }
  }
}
