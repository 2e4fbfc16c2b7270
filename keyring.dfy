/** Token storage in the OS keychain: one slot under a fixed service name and key. The keychain backend
    and JSON encoding are not modelled: the slot holds either a token's encoding or data that does not
    decode, and backend failures are faults fixed when the store is opened. */
module Keyring {
  import opened Common

  /** An OAuth2 token; `expiry` is a timestamp. */
  datatype Token = Token(accessToken: string, tokenType: string, refreshToken: string, expiry: int)

  /** What the slot can hold. */
  datatype Payload = Encoded(token: Token) | Undecodable(data: string)

  datatype AuthError =
    | KeyringRead(reason: string)   // "could not retrieve token from keyring: ..."
    | Decode(reason: string)        // "could not decode token: ..."
    | KeyringWrite(reason: string)  // "could not store token in keyring: ..."
    | KeyringDelete(reason: string) // "could not delete token from keyring: ..."
    | NotLoggedIn                   // "not logged in - run 'gsc auth login' first"
    | RefreshFailed(reason: string) // the error of the refresh, passed on unchanged

  /** The keychain entry `gsc-cli` / `oauth_token`. */
  class Store {
    /** The entry, or `None` when there is no entry (the backend's "not found"). */
    var slot: Option<Payload>
    /** A backend error, other than "not found", that every read, write or delete reports. */
    const readFault: Option<string>
    const writeFault: Option<string>
    const deleteFault: Option<string>

    constructor (slot: Option<Payload>, readFault: Option<string>, writeFault: Option<string>, deleteFault: Option<string>)
      ensures this.slot == slot && this.readFault == readFault
      ensures this.writeFault == writeFault && this.deleteFault == deleteFault
    {
      this.slot := slot;
      this.readFault := readFault;
      this.writeFault := writeFault;
      this.deleteFault := deleteFault;
    }

    /** What reading the entry yields: a missing entry is no token and no error; a backend error or data
        that does not decode is an error. */
    function Read(): (r: Result<Option<Token>, AuthError>)
      reads this
      ensures readFault.Some? ==> r == Failure(KeyringRead(readFault.value))
      ensures readFault.None? ==> (r == Success(None) <==> slot.None?)
      ensures readFault.None? && slot.Some? ==> (r.Failure? <==> slot.value.Undecodable?)
      ensures r.Success? && r.value.Some? ==> slot == Some(Encoded(r.value.value))
    {
      if readFault.Some? then Failure(KeyringRead(readFault.value))
      else match slot
        case None => Success(None)
        case Some(Encoded(t)) => Success(Some(t))
        case Some(Undecodable(data)) => Failure(Decode(data))
    }

    /** `GetToken`. */
    method GetToken() returns (r: Result<Option<Token>, AuthError>)
      ensures r == Read()
    {
      if readFault.Some? {
        return Failure(KeyringRead(readFault.value));
      }
      if slot.None? {
        return Success(None);
      }
      match slot.value {
        case Encoded(t) => r := Success(Some(t));
        case Undecodable(data) => r := Failure(Decode(data));
      }
    }

    /** `SetToken`: replaces whatever the entry held (encoding a token cannot fail). */
    method SetToken(t: Token) returns (e: Outcome<AuthError>)
      modifies this`slot
      ensures writeFault.Some? ==> e == Fail(KeyringWrite(writeFault.value)) && slot == old(slot)
      ensures writeFault.None? ==> e == Pass && slot == Some(Encoded(t))
    {
      if writeFault.Some? {
        return Fail(KeyringWrite(writeFault.value));
      }
      slot := Some(Encoded(t));
      e := Pass;
    }

    /** `DeleteToken`: removes the entry; a missing entry is not an error. */
    method DeleteToken() returns (e: Outcome<AuthError>)
      modifies this`slot
      ensures deleteFault.Some? ==> e == Fail(KeyringDelete(deleteFault.value)) && slot == old(slot)
      ensures deleteFault.None? ==> e == Pass && slot == None
    {
      if deleteFault.Some? {
        return Fail(KeyringDelete(deleteFault.value));
      }
      slot := None;
      e := Pass;
    }

    /** `HasToken`: whether a token can be read; errors count as no token. */
    method HasToken() returns (b: bool)
      ensures b <==> Read().Success? && Read().value.Some?
      ensures b ==> readFault.None? && slot.Some? && slot.value.Encoded?
    {
      var r := GetToken();
      b := r.Success? && r.value.Some?;
    }
  }

  /** A token just stored is the token read back, whatever the entry held before: there is one slot. */
  method SetThenGet(s: Store, t: Token) returns (r: Result<Option<Token>, AuthError>)
    requires s.writeFault.None? && s.readFault.None?
    modifies s`slot
    ensures r == Success(Some(t))
  {
    var e := s.SetToken(t);
    r := s.GetToken();
  }

  /** Storing twice keeps only the second token. */
  method SetTwiceThenGet(s: Store, t1: Token, t2: Token) returns (r: Result<Option<Token>, AuthError>)
    requires s.writeFault.None? && s.readFault.None?
    modifies s`slot
    ensures r == Success(Some(t2))
  {
    var e1 := s.SetToken(t1);
    var e2 := s.SetToken(t2);
    r := s.GetToken();
  }

  /** Deleting succeeds whether or not there is an entry, so deleting twice succeeds twice, and afterwards
      there is no token, without error. */
  method DeleteTwiceThenGet(s: Store) returns (e1: Outcome<AuthError>, e2: Outcome<AuthError>, r: Result<Option<Token>, AuthError>, has: bool)
    requires s.deleteFault.None? && s.readFault.None?
    modifies s`slot
    ensures e1 == Pass && e2 == Pass && r == Success(None) && !has
  {
    e1 := s.DeleteToken();
    e2 := s.DeleteToken();
    r := s.GetToken();
    has := s.HasToken();
  }
}
