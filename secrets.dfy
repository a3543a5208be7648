/**
 * The secret lifecycle: `CreateSecret` replaces any secret of the same name
 * (delete, then create) and `DeleteSecret` removes one. Every failure of the
 * cluster client is reported as retriable.
 */
module Secrets {
  import opened Wrappers
  import opened Errors

  newtype byte = x: int | 0 <= x < 256

  // ---------------------------------------------------------------------
  // Converting values to bytes

  /** The UTF-8 encoding of one character. */
  function EncodeRune(c: char): (r: seq<byte>)
    ensures 1 <= |r| <= 4
    ensures |r| == 1 <==> c as int < 0x80
    ensures |r| == 1 ==> r[0] as int == c as int
    ensures |r| > 1 ==> r[0] as int >= 0xC0 && forall k :: 1 <= k < |r| ==> 0x80 <= r[k] as int < 0xC0
  {
    var n := c as int;
    if n < 0x80 then [n as byte]
    else if n < 0x800 then [(0xC0 + n / 0x40) as byte, (0x80 + n % 0x40) as byte]
    else if n < 0x10000 then
      [(0xE0 + n / 0x1000) as byte, (0x80 + (n / 0x40) % 0x40) as byte, (0x80 + n % 0x40) as byte]
    else
      [(0xF0 + n / 0x40000) as byte, (0x80 + (n / 0x1000) % 0x40) as byte,
       (0x80 + (n / 0x40) % 0x40) as byte, (0x80 + n % 0x40) as byte]
  }

  /** `[]byte(s)`: the UTF-8 bytes of a string. */
  function ToBytes(s: string): seq<byte>
  {
    if s == [] then [] else ToBytes(s[..|s| - 1]) + EncodeRune(s[|s| - 1])
  }

  /** An ASCII value becomes the bytes of its characters, one byte each. */
  lemma {:induction false} AsciiToBytes(s: string)
    requires forall i :: 0 <= i < |s| ==> s[i] as int < 0x80
    ensures |ToBytes(s)| == |s|
    ensures forall i :: 0 <= i < |s| ==> ToBytes(s)[i] as int == s[i] as int
  {
    if s != [] {
      var init := s[..|s| - 1];
      AsciiToBytes(init);
      assert ToBytes(s) == ToBytes(init) + EncodeRune(s[|s| - 1]);
      forall i | 0 <= i < |s| ensures ToBytes(s)[i] as int == s[i] as int {
        if i < |init| {
          assert s[i] == init[i];
        }
      }
    }
  }

  /** The secret's data: every value converted to bytes, under the same key. */
  function BytesMap(dataValues: map<string, string>): map<string, seq<byte>>
  {
    map key | key in dataValues :: ToBytes(dataValues[key])
  }

  /** The loop of `CreateSecret` that converts each value to bytes. */
  method ConvertData(dataValues: map<string, string>) returns (data: map<string, seq<byte>>)
    ensures data.Keys == dataValues.Keys
    ensures forall key :: key in data ==> data[key] == ToBytes(dataValues[key])
  {
    data := map[];
    var rest := dataValues.Keys;
    while rest != {}
      invariant rest <= dataValues.Keys
      invariant data.Keys == dataValues.Keys - rest
      invariant forall key :: key in data ==> data[key] == ToBytes(dataValues[key])
      decreases rest
    {
      var key :| key in rest;
      data := data[key := ToBytes(dataValues[key])];
      rest := rest - {key};
    }
  }

  // ---------------------------------------------------------------------
  // The cluster's secret store

  datatype Key = Key(namespace: string, name: string)

  datatype Secret = Secret(name: string, labels: map<string, string>, data: map<string, seq<byte>>, secretType: string)

  const SecretTypeOpaque := "Opaque"

  /** What a failed get leaves in the secret variable: an object with no name. */
  const EmptySecret := Secret("", map[], map[], "")

  /** The calls of the secret client. */
  datatype Verb = GetVerb | CreateVerb | DeleteVerb

  /** Every stored secret is stored under its own name. */
  ghost predicate NamedByKey(secrets: map<Key, Secret>)
  {
    forall k :: k in secrets ==> secrets[k].name == k.name
  }

  /** The outcome of a call that changes the store: the new contents and the error, if any. */
  datatype Change<E> = Change(secrets: map<Key, Secret>, err: Option<E>)

  /**
   * The API server's answer to a get. A verb in `refused` fails whatever
   * the store holds (a broken connection or a denied permission).
   */
  function ApiGet(secrets: map<Key, Secret>, refused: set<Verb>, key: Key): Result<Secret, string>
  {
    if GetVerb in refused then Err("get refused")
    else if key !in secrets then Err("not found")
    else Ok(secrets[key])
  }

  /** The API server's delete: fails on a missing secret, otherwise removes it. */
  function ApiDelete(secrets: map<Key, Secret>, refused: set<Verb>, key: Key): Change<string>
  {
    if DeleteVerb in refused then Change(secrets, Some("delete refused"))
    else if key !in secrets then Change(secrets, Some("not found"))
    else Change(secrets - {key}, None)
  }

  /** The API server's create: fails when the name is taken, otherwise stores the secret. */
  function ApiCreate(secrets: map<Key, Secret>, refused: set<Verb>, namespace: string, s: Secret): Change<string>
  {
    var key := Key(namespace, s.name);
    if CreateVerb in refused then Change(secrets, Some("create refused"))
    else if key in secrets then Change(secrets, Some("already exists"))
    else Change(secrets[key := s], None)
  }

  /** The secrets of the cluster, as the client sees them. */
  class SecretStore {
    var secrets: map<Key, Secret>
    const refused: set<Verb>

    ghost predicate Valid()
      reads this
    {
      NamedByKey(secrets)
    }

    constructor (initial: map<Key, Secret>, refused: set<Verb>)
      requires NamedByKey(initial)
      ensures Valid() && secrets == initial && this.refused == refused
    {
      secrets := initial;
      this.refused := refused;
    }

    method Get(namespace: string, name: string) returns (r: Result<Secret, string>)
      ensures r == ApiGet(secrets, refused, Key(namespace, name))
    {
      var key := Key(namespace, name);
      if GetVerb in refused {
        r := Err("get refused");
      } else if key !in secrets {
        r := Err("not found");
      } else {
        r := Ok(secrets[key]);
      }
    }

    method Delete(namespace: string, name: string) returns (err: Option<string>)
      requires Valid()
      modifies this
      ensures Valid()
      ensures Change(secrets, err) == ApiDelete(old(secrets), refused, Key(namespace, name))
    {
      var key := Key(namespace, name);
      if DeleteVerb in refused {
        err := Some("delete refused");
      } else if key !in secrets {
        err := Some("not found");
      } else {
        secrets := secrets - {key};
        err := None;
      }
    }

    method Create(namespace: string, s: Secret) returns (err: Option<string>)
      requires Valid()
      modifies this
      ensures Valid()
      ensures Change(secrets, err) == ApiCreate(old(secrets), refused, namespace, s)
    {
      var key := Key(namespace, s.name);
      if CreateVerb in refused {
        err := Some("create refused");
      } else if key in secrets {
        err := Some("already exists");
      } else {
        secrets := secrets[key := s];
        err := None;
      }
    }
  }

  // ---------------------------------------------------------------------
  // DeleteSecret and CreateSecret

  /**
   * What `DeleteSecret` does, given the outcome of getting a client
   * (`clientErr` is None when a client was obtained).
   */
  function DeleteSecretSpec(clientErr: Option<string>, secrets: map<Key, Secret>, refused: set<Verb>,
                            namespace: string, name: string): Change<Error>
  {
    if clientErr.Some? then Change(secrets, Some(Retriable(clientErr.value)))
    else
      var d := ApiDelete(secrets, refused, Key(namespace, name));
      match d.err
      case Some(e) => Change(d.secrets, Some(Retriable(e)))
      case None => Change(d.secrets, None)
  }

  /** The secret `CreateSecret` builds: opaque, with the given labels and the values as bytes. */
  function NewSecret(name: string, dataValues: map<string, string>, labels: map<string, string>): Secret
  {
    Secret(name, labels, BytesMap(dataValues), SecretTypeOpaque)
  }

  /** The create step of `CreateSecret`, with its failure made retriable. */
  function CreateStep(secrets: map<Key, Secret>, refused: set<Verb>, namespace: string, s: Secret): Change<Error>
  {
    var c := ApiCreate(secrets, refused, namespace, s);
    match c.err
    case Some(e) => Change(c.secrets, Some(Retriable(e)))
    case None => Change(c.secrets, None)
  }

  /**
   * What `CreateSecret` does: look the name up (a failed lookup counts as
   * absent), delete the secret found, then create the new one. The nested
   * `DeleteSecret` gets a client of its own, whose outcome is `deleteClientErr`.
   */
  function CreateSecretSpec(clientErr: Option<string>, deleteClientErr: Option<string>,
                            secrets: map<Key, Secret>, refused: set<Verb>,
                            namespace: string, name: string,
                            dataValues: map<string, string>, labels: map<string, string>): Change<Error>
  {
    if clientErr.Some? then Change(secrets, Some(Retriable(clientErr.value)))
    else
      var found := match ApiGet(secrets, refused, Key(namespace, name)) case Ok(s) => s case Err(_) => EmptySecret;
      var secret := NewSecret(name, dataValues, labels);
      if |found.name| > 0 then
        var d := DeleteSecretSpec(deleteClientErr, secrets, refused, namespace, name);
        match d.err
        case Some(e) => Change(d.secrets, Some(Retriable(e.Message())))
        case None => CreateStep(d.secrets, refused, namespace, secret)
      else CreateStep(secrets, refused, namespace, secret)
  }

  /** `DeleteSecret`: delete the named secret, reporting any failure as retriable. */
  method DeleteSecret(clientErr: Option<string>, store: SecretStore, namespace: string, name: string)
    returns (err: Option<Error>)
    requires store.Valid()
    modifies store
    ensures store.Valid()
    ensures Change(store.secrets, err) == DeleteSecretSpec(clientErr, old(store.secrets), store.refused, namespace, name)
  {
    if clientErr.Some? {
      return Some(Retriable(clientErr.value));
    }
    var e := store.Delete(namespace, name);
    if e.Some? {
      return Some(Retriable(e.value));
    }
    return None;
  }

  /** `CreateSecret`: replace any secret of that name by a new opaque secret. */
  method CreateSecret(clientErr: Option<string>, deleteClientErr: Option<string>,
                      store: SecretStore, namespace: string, name: string,
                      dataValues: map<string, string>, labels: map<string, string>)
    returns (err: Option<Error>)
    requires store.Valid()
    modifies store
    ensures store.Valid()
    ensures Change(store.secrets, err)
         == CreateSecretSpec(clientErr, deleteClientErr, old(store.secrets), store.refused, namespace, name, dataValues, labels)
  {
    if clientErr.Some? {
      return Some(Retriable(clientErr.value));
    }
    var got := store.Get(namespace, name);
    var secret := if got.Ok? then got.value else EmptySecret;

    if |secret.name| > 0 {
      var deleteErr := DeleteSecret(deleteClientErr, store, namespace, name);
      if deleteErr.Some? {
        return Some(Retriable(deleteErr.value.Message()));
      }
    }

    var data := ConvertData(dataValues);
    assert data == BytesMap(dataValues);
    var secretObj := Secret(name, labels, data, SecretTypeOpaque);

    var createErr := store.Create(namespace, secretObj);
    if createErr.Some? {
      return Some(Retriable(createErr.value));
    }
    return None;
  }

  // ---------------------------------------------------------------------
  // Properties

  /** Every failure of `CreateSecret` and `DeleteSecret` is retriable. */
  lemma FailuresAreRetriable(clientErr: Option<string>, deleteClientErr: Option<string>, secrets: map<Key, Secret>, refused: set<Verb>,
                             namespace: string, name: string,
                             dataValues: map<string, string>, labels: map<string, string>)
    ensures var c := CreateSecretSpec(clientErr, deleteClientErr, secrets, refused, namespace, name, dataValues, labels);
      c.err.Some? ==> c.err.value.Retriable?
    ensures var d := DeleteSecretSpec(clientErr, secrets, refused, namespace, name);
      d.err.Some? ==> d.err.value.Retriable?
  {
  }

  /**
   * After a successful `CreateSecret` the store holds exactly the new secret
   * under that name, and every other name is as it was.
   */
  lemma CreateSecretUpserts(clientErr: Option<string>, deleteClientErr: Option<string>, secrets: map<Key, Secret>, refused: set<Verb>,
                            namespace: string, name: string,
                            dataValues: map<string, string>, labels: map<string, string>)
    requires CreateSecretSpec(clientErr, deleteClientErr, secrets, refused, namespace, name, dataValues, labels).err.None?
    ensures var after := CreateSecretSpec(clientErr, deleteClientErr, secrets, refused, namespace, name, dataValues, labels).secrets;
      && after == secrets[Key(namespace, name) := NewSecret(name, dataValues, labels)]
      && after[Key(namespace, name)].secretType == SecretTypeOpaque
      && (forall key :: key in after[Key(namespace, name)].data <==> key in dataValues)
      && (forall k :: k != Key(namespace, name) ==> (k in after <==> k in secrets))
  {
    var key := Key(namespace, name);
    var found := match ApiGet(secrets, refused, key) case Ok(s) => s case Err(_) => EmptySecret;
    if |found.name| > 0 {
      assert secrets - {key} + map[key := NewSecret(name, dataValues, labels)]
          == secrets[key := NewSecret(name, dataValues, labels)];
    }
  }

  /**
   * When the existing secret cannot be deleted, because the delete is refused
   * or because the nested `DeleteSecret` gets no client, `CreateSecret` fails
   * retriably and creates nothing: the store is unchanged.
   */
  lemma CreateSecretStopsOnDeleteFailure(deleteClientErr: Option<string>, secrets: map<Key, Secret>, refused: set<Verb>, namespace: string, name: string,
                                         dataValues: map<string, string>, labels: map<string, string>)
    requires name != "" && Key(namespace, name) in secrets && NamedByKey(secrets)
    requires GetVerb !in refused && (DeleteVerb in refused || deleteClientErr.Some?)
    ensures var c := CreateSecretSpec(None, deleteClientErr, secrets, refused, namespace, name, dataValues, labels);
      c.secrets == secrets && c.err.Some? && c.err.value.Retriable?
  {
  }

  /**
   * Calling `CreateSecret` twice for one name, against a store that answers
   * every call, leaves exactly one secret there, holding the second call's
   * data and labels.
   */
  lemma CreateSecretTwice(secrets: map<Key, Secret>, namespace: string, name: string,
                          data1: map<string, string>, labels1: map<string, string>,
                          data2: map<string, string>, labels2: map<string, string>)
    requires name != "" && NamedByKey(secrets)
    ensures var first := CreateSecretSpec(None, None, secrets, {}, namespace, name, data1, labels1);
      var second := CreateSecretSpec(None, None, first.secrets, {}, namespace, name, data2, labels2);
      && first.err.None? && second.err.None?
      && second.secrets == secrets[Key(namespace, name) := NewSecret(name, data2, labels2)]
  {
    var key := Key(namespace, name);
    var first := CreateSecretSpec(None, None, secrets, {}, namespace, name, data1, labels1);
    if key in secrets {
      assert secrets[key].name == name;
      assert (secrets - {key})[key := NewSecret(name, data1, labels1)] == secrets[key := NewSecret(name, data1, labels1)];
    }
    assert first.secrets == secrets[key := NewSecret(name, data1, labels1)];
    assert first.secrets[key].name == name;
    assert (first.secrets - {key})[key := NewSecret(name, data2, labels2)] == secrets[key := NewSecret(name, data2, labels2)];
  }

  /** `DeleteSecret` of a name the store does not hold fails retriably and changes nothing. */
  lemma DeleteAbsentSecret(clientErr: Option<string>, secrets: map<Key, Secret>, refused: set<Verb>,
                           namespace: string, name: string)
    requires Key(namespace, name) !in secrets
    ensures var d := DeleteSecretSpec(clientErr, secrets, refused, namespace, name);
      d.secrets == secrets && d.err.Some? && d.err.value.Retriable?
  {
  }

  /** A successful `DeleteSecret` removes that name and nothing else. */
  lemma DeleteSecretRemovesOnlyName(clientErr: Option<string>, secrets: map<Key, Secret>, refused: set<Verb>,
                                    namespace: string, name: string)
    requires DeleteSecretSpec(clientErr, secrets, refused, namespace, name).err.None?
    ensures var after := DeleteSecretSpec(clientErr, secrets, refused, namespace, name).secrets;
      && Key(namespace, name) in secrets
      && after == secrets - {Key(namespace, name)}
      && forall k :: k != Key(namespace, name) ==> (k in after <==> k in secrets)
  {
  }
}
