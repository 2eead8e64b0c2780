/** The contents of a credentials Secret and the ways in which the DatabaseUser controller edits them. */
module SecretData {

  /** The names under which the five values are stored. */
  datatype Keys = Keys(host: string, port: string, database: string, user: string, password: string)

  datatype Template = Raw | DB | DATABASE | POSTGRES | Custom(keys: Keys)

  /** getSecretKeys: an empty custom name falls back to the raw one. */
  function KeysOf(template: Template): Keys
  {
    match template
    case Raw => Keys("host", "port", "database", "user", "password")
    case DB => Keys("DB_HOST", "DB_PORT", "DB_NAME", "DB_USER", "DB_PASSWORD")
    case DATABASE => Keys("DATABASE_HOST", "DATABASE_PORT", "DATABASE_NAME", "DATABASE_USER", "DATABASE_PASSWORD")
    case POSTGRES => Keys("POSTGRES_HOST", "POSTGRES_PORT", "POSTGRES_DATABASE", "POSTGRES_USER", "POSTGRES_PASSWORD")
    case Custom(k) => Keys(Or(k.host, "host"), Or(k.port, "port"), Or(k.database, "database"), Or(k.user, "user"),
                           Or(k.password, "password"))
  }

  function Or(name: string, default: string): string { if name != "" then name else default }

  const LIST := "databases"

  /** The values besides the password; list is the joined list of databases, or empty if it is not wanted. */
  datatype Fields = Fields(host: string, port: string, database: string, user: string, list: string)

  type Data = map<string, string>

  /** A missing entry reads as the empty string. */
  function Entry(data: Data, key: string): string { if key in data then data[key] else "" }

  function WithFields(data: Data, k: Keys, f: Fields): Data
  {
    data[k.host := f.host][k.port := f.port][k.database := f.database][k.user := f.user]
  }

  function WithList(data: Data, f: Fields): Data
  {
    if f.list != "" then data[LIST := f.list] else data - {LIST}
  }

  /** createPrimarySecret and adoptSecret start from nothing. */
  function Fresh(k: Keys, f: Fields, password: string): Data
  {
    var data := WithFields(map[], k, f)[k.password := password];
    if f.list != "" then data[LIST := f.list] else data
  }

  function Updated(data: Data, k: Keys, f: Fields): Data
  {
    if Entry(data, LIST) == f.list && Entry(data, k.database) == f.database then data
    else WithList(WithFields(data, k, f), f)
  }

  function Rotated(data: Data, k: Keys, f: Fields, password: string): Data
  {
    WithList(WithFields(data[k.password := password], k, f), f)
  }

  function Merged(data: Data, k: Keys, f: Fields, password: string): Data
  {
    WithList(WithFields(data, k, f)[k.password := password], f)
  }

  /** The password has an entry of its own. */
  predicate PasswordKeyIsOwn(k: Keys)
  {
    k.password != k.host && k.password != k.port && k.password != k.database && k.password != k.user
        && k.password != LIST
  }

  lemma BuiltInKeysAreFine(template: Template)
    requires !template.Custom?
    ensures AllKeysAreOwn(KeysOf(template))
  {
    var k := KeysOf(template);
    assert LIST[0] == 'd' && k.password[0] != 'd';
    match template
    case Raw => assert k.host[0] == 'h' && k.database[0] == 'd' && k.user[0] == 'u' && k.port[1] == 'o'
        && k.password[1] == 'a';
    case DB => assert k.host[3] == 'H' && k.database[3] == 'N' && k.user[3] == 'U' && k.port[4] == 'O'
        && k.password[4] == 'A';
    case DATABASE => assert k.host[9] == 'H' && k.database[9] == 'N' && k.user[9] == 'U' && k.port[10] == 'O'
        && k.password[10] == 'A';
    case POSTGRES => assert k.host[9] == 'H' && k.database[9] == 'D' && k.user[9] == 'U' && k.port[10] == 'O'
        && k.password[10] == 'A';
  }

  /** Every write that sets a password stores it, and the update of the other fields leaves it alone. */
  lemma PasswordSurvivesEdits(k: Keys, data: Data, f: Fields, password: string)
    requires PasswordKeyIsOwn(k)
    ensures Entry(Fresh(k, f, password), k.password) == password
    ensures Entry(Rotated(data, k, f, password), k.password) == password
    ensures Entry(Merged(data, k, f, password), k.password) == password
    ensures Entry(Updated(data, k, f), k.password) == Entry(data, k.password)
  {
  }

  /** All five values have entries of their own. */
  predicate AllKeysAreOwn(k: Keys)
  {
    PasswordKeyIsOwn(k)
    && k.host != k.port && k.host != k.database && k.host != k.user && k.host != LIST
    && k.port != k.database && k.port != k.user && k.port != LIST
    && k.database != k.user && k.database != LIST && k.user != LIST
  }

  /** Each value stands under its own key, and the list is there exactly if it is wanted. */
  predicate HoldsFields(data: Data, k: Keys, f: Fields)
  {
    {k.host, k.port, k.database, k.user} <= data.Keys
    && data[k.host] == f.host && data[k.port] == f.port && data[k.database] == f.database && data[k.user] == f.user
    && (if f.list != "" then LIST in data && data[LIST] == f.list else LIST !in data)
  }

  /** The keys that the operator writes. */
  function Written(k: Keys): set<string> { {k.host, k.port, k.database, k.user, k.password, LIST} }

  /** Creation, adoption, rotation and merge store every value; the last two keep what others put into the Secret. */
  lemma WritesHoldFields(k: Keys, data: Data, f: Fields, password: string)
    requires AllKeysAreOwn(k)
    ensures HoldsFields(Fresh(k, f, password), k, f) && Fresh(k, f, password).Keys <= Written(k)
    ensures HoldsFields(Rotated(data, k, f, password), k, f) && HoldsFields(Merged(data, k, f, password), k, f)
    ensures forall key :: key !in Written(k) ==>
              (key in Rotated(data, k, f, password) <==> key in data)
              && (key in Merged(data, k, f, password) <==> key in data)
              && (key in data ==> Rotated(data, k, f, password)[key] == Merged(data, k, f, password)[key] == data[key])
  {
  }

  /**
   The update of an own Secret looks at the list and the primary database only: afterwards every value is right exactly
   if it was before or one of these two was not up to date.
   */
  lemma UpdateHoldsFieldsIff(k: Keys, data: Data, f: Fields)
    requires AllKeysAreOwn(k)
    ensures HoldsFields(Updated(data, k, f), k, f)
       <==> HoldsFields(data, k, f) || Entry(data, LIST) != f.list || Entry(data, k.database) != f.database
    ensures forall key :: key !in Written(k) ==>
              (key in Updated(data, k, f) <==> key in data) && (key in data ==> Updated(data, k, f)[key] == data[key])
  {
  }

  ghost predicate UpdateKeepsPassword(k: Keys, data: Data, f: Fields)
  {
    Entry(Updated(data, k, f), k.password) == Entry(data, k.password)
  }

  /** The update of the other fields is safe for the password exactly when it has an entry of its own. */
  lemma UpdateIsSafeIff(k: Keys)
    ensures (forall data, f :: UpdateKeepsPassword(k, data, f)) <==> PasswordKeyIsOwn(k)
  {
    if PasswordKeyIsOwn(k) {
      forall data, f
        ensures UpdateKeepsPassword(k, data, f)
      {
        PasswordSurvivesEdits(k, data, f, "");
      }
    } else {
      assert !UpdateKeepsPassword(k, map[k.password := "p"], Fields("q", "q", "q", "q", "q"));
    }
  }

  /** A Secret that was read and is edited in place before it is written back. */
  class SecretObject {
    var data: Data

    constructor (data: Data)
      ensures this.data == data
    {
      this.data := data;
    }

    method PutFields(k: Keys, f: Fields)
      modifies this
      ensures data == WithFields(old(data), k, f)
    {
      data := data[k.host := f.host];
      data := data[k.port := f.port];
      data := data[k.database := f.database];
      data := data[k.user := f.user];
    }

    method PutList(f: Fields)
      modifies this
      ensures data == WithList(old(data), f)
    {
      if f.list != "" {
        data := data[LIST := f.list];
      } else {
        data := data - {LIST};
      }
    }

    /** updateSecretDatabases: nothing is written when list and primary database are up to date. */
    method UpdateDatabases(k: Keys, f: Fields) returns (write: bool)
      modifies this
      ensures data == Updated(old(data), k, f)
      ensures !write ==> data == old(data)
      ensures PasswordKeyIsOwn(k) ==> Entry(data, k.password) == old(Entry(data, k.password))
    {
      PasswordOfUpdate(k, data, f);
      if Entry(data, LIST) == f.list && Entry(data, k.database) == f.database {
        return false;
      }
      PutFields(k, f);
      PutList(f);
      return true;
    }

    /** The edits of rotatePassword: the password goes in first. */
    method Rotate(k: Keys, f: Fields, password: string)
      modifies this
      ensures data == Rotated(old(data), k, f, password)
      ensures AllKeysAreOwn(k) ==> HoldsFields(data, k, f)
      ensures PasswordKeyIsOwn(k) ==> Entry(data, k.password) == password
    {
      data := data[k.password := password];
      PutFields(k, f);
      PutList(f);
    }

    /** The edits of adoptSecret: all earlier contents are dropped. */
    method Adopt(k: Keys, f: Fields, password: string)
      modifies this
      ensures data == Fresh(k, f, password)
      ensures AllKeysAreOwn(k) ==> HoldsFields(data, k, f)
      ensures PasswordKeyIsOwn(k) ==> Entry(data, k.password) == password
    {
      data := map[];
      PutFields(k, f);
      data := data[k.password := password];
      if f.list != "" {
        data := data[LIST := f.list];
      }
    }

    /** The edits of mergeSecret: entries under other names stay. */
    method Merge(k: Keys, f: Fields, password: string)
      modifies this
      ensures data == Merged(old(data), k, f, password)
      ensures AllKeysAreOwn(k) ==> HoldsFields(data, k, f)
      ensures PasswordKeyIsOwn(k) ==> Entry(data, k.password) == password
      ensures forall key :: key in old(data) && key !in {k.host, k.port, k.database, k.user, k.password, LIST} ==>
                key in data && data[key] == old(data)[key]
    {
      PutFields(k, f);
      data := data[k.password := password];
      PutList(f);
    }
  }

  lemma PasswordOfUpdate(k: Keys, data: Data, f: Fields)
    ensures PasswordKeyIsOwn(k) ==> Entry(Updated(data, k, f), k.password) == Entry(data, k.password)
  {
  }
}
