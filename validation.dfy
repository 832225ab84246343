/**
 * `validateUser` from validation.js: a fixed list of rules over the lengths of the
 * submitted username, password and email, with a patch mode for partial updates.
 * The one outside dependency, whether `users.findByUsername(username)` finds a row,
 * is the input `usernameRegistered`.
 */
module Validation {
  import opened Js

  /** `{ field, message }` as pushed onto `validationMessages`. */
  datatype Message = Message(field: string, message: string)

  const UsernameInvalid := "Username is required, must be at least three letters and no more than 32 characters"
  const UsernameRegistered := "Username is already registered"
  const PasswordInvalid := "Password must be at least six letters"
  const EmailInvalid := "Email is required, must not be empty or longer than 64 characters"

  const BadUsernameMessage := Message("username", UsernameInvalid)
  const RegisteredMessage := Message("username", UsernameRegistered)
  const BadPasswordMessage := Message("password", PasswordInvalid)
  const BadEmailMessage := Message("email", EmailInvalid)

  /** `isEmpty(s)`: `s != null && !s`, a value that is present but falsy. */
  predicate IsEmpty(v: Value)
    ensures IsEmpty(v) <==> v == Str("") || v == Bool(false) || v == Num(NaN) || v == Num(Finite(0.0))
  {
    !IsNullish(v) && !Truthy(v)
  }

  predicate BadUsername(username: Value)
  {
    !username.Str? || |username.s| < 3 || |username.s| > 32
  }

  predicate BadPassword(password: Value)
  {
    !password.Str? || |password.s| < 6
  }

  predicate BadEmail(email: Value)
  {
    !email.Str? || |email.s| == 0 || |email.s| > 64
  }

  /** The guard `!patch || v || isEmpty(v)` in front of the password and email rules. */
  predicate Checked(v: Value, patch: bool)
  {
    !patch || Truthy(v) || IsEmpty(v)
  }

  /** Position of a field in the order the rules run. */
  function FieldRank(field: string): nat
  {
    if field == "username" then 0 else if field == "password" then 1 else 2
  }

  function ValidateUser(username: Value, password: Value, email: Value, patch: bool, usernameRegistered: bool): (r: seq<Message>)
    ensures BadUsernameMessage in r <==> !patch && BadUsername(username)
    ensures RegisteredMessage in r <==> !patch && usernameRegistered
    ensures BadPasswordMessage in r <==> Checked(password, patch) && BadPassword(password)
    ensures BadEmailMessage in r <==> Checked(email, patch) && BadEmail(email)
    ensures forall m :: m in r ==> m in {BadUsernameMessage, RegisteredMessage, BadPasswordMessage, BadEmailMessage}
    ensures forall i, j :: 0 <= i < j < |r| ==> r[i] != r[j]
    ensures forall i, j :: 0 <= i < j < |r| ==> FieldRank(r[i].field) <= FieldRank(r[j].field)
    ensures patch ==> forall m :: m in r ==> m.field != "username"
  {
    var bu, rg := !patch && BadUsername(username), !patch && usernameRegistered;
    var bp, be := Checked(password, patch) && BadPassword(password), Checked(email, patch) && BadEmail(email);
    MessagesPresent(bu, rg, bp, be);
    MessagesOrdered(bu, rg, bp, be);
    Messages(bu, rg, bp, be)
  }

  /** The four rules' messages in rule order, each one present when its rule fired. */
  function Messages(badUsername: bool, registered: bool, badPassword: bool, badEmail: bool): seq<Message>
  {
    UsernameMessages(badUsername, registered) + SecretMessages(badPassword, badEmail)
  }

  /** A message is in the list exactly when its rule fired, and no other message is. */
  lemma MessagesPresent(badUsername: bool, registered: bool, badPassword: bool, badEmail: bool)
    ensures var r := Messages(badUsername, registered, badPassword, badEmail);
            && (BadUsernameMessage in r <==> badUsername)
            && (RegisteredMessage in r <==> registered)
            && (BadPasswordMessage in r <==> badPassword)
            && (BadEmailMessage in r <==> badEmail)
            && forall m :: m in r ==> m in {BadUsernameMessage, RegisteredMessage, BadPasswordMessage, BadEmailMessage}
  {
    MessageRanks();
  }

  /** No message is repeated, and the username, password and email messages come in that order. */
  lemma MessagesOrdered(badUsername: bool, registered: bool, badPassword: bool, badEmail: bool)
    ensures var r := Messages(badUsername, registered, badPassword, badEmail);
            forall i, j :: 0 <= i < j < |r| ==> r[i] != r[j] && FieldRank(r[i].field) <= FieldRank(r[j].field)
  {
    JoinedMessages(UsernameMessages(badUsername, registered), SecretMessages(badPassword, badEmail));
  }

  /** Username messages followed by password and email messages are distinct and in rule order. */
  lemma JoinedMessages(front: seq<Message>, back: seq<Message>)
    requires forall m :: m in front ==> m == BadUsernameMessage || m == RegisteredMessage
    requires forall m :: m in back ==> m == BadPasswordMessage || m == BadEmailMessage
    requires forall i, j :: 0 <= i < j < |front| ==> front[i] != front[j]
    requires forall i, j :: 0 <= i < j < |back| ==> back[i] != back[j] && FieldRank(back[i].field) <= FieldRank(back[j].field)
    ensures forall i, j :: 0 <= i < j < |front + back| ==>
              (front + back)[i] != (front + back)[j] && FieldRank((front + back)[i].field) <= FieldRank((front + back)[j].field)
  {
    MessageRanks();
    var r := front + back;
    forall i, j | 0 <= i < j < |r|
      ensures r[i] != r[j] && FieldRank(r[i].field) <= FieldRank(r[j].field)
    {
      if j < |front| {
        assert r[i] == front[i] && r[j] == front[j];
        assert front[i] in front && front[j] in front;
      } else if |front| <= i {
        assert r[i] == back[i - |front|] && r[j] == back[j - |front|];
      } else {
        assert r[i] == front[i] && r[j] == back[j - |front|];
        assert front[i] in front && back[j - |front|] in back;
      }
    }
  }

  /** The rank of each message's field, and that the four messages are distinct. */
  lemma MessageRanks()
    ensures FieldRank(BadUsernameMessage.field) == 0 && FieldRank(RegisteredMessage.field) == 0
    ensures FieldRank(BadPasswordMessage.field) == 1 && FieldRank(BadEmailMessage.field) == 2
    ensures BadUsernameMessage != RegisteredMessage
    ensures BadPasswordMessage != BadEmailMessage
    ensures BadUsernameMessage != BadPasswordMessage && BadUsernameMessage != BadEmailMessage
    ensures RegisteredMessage != BadPasswordMessage && RegisteredMessage != BadEmailMessage
  {
    assert "password"[0] != "username"[0];
    assert "email"[0] != "username"[0] && "email"[0] != "password"[0];
  }

  function UsernameMessages(badUsername: bool, registered: bool): (r: seq<Message>)
    ensures BadUsernameMessage in r <==> badUsername
    ensures RegisteredMessage in r <==> registered
    ensures forall m :: m in r ==> m == BadUsernameMessage || m == RegisteredMessage
    ensures forall i, j :: 0 <= i < j < |r| ==> r[i] != r[j]
  {
    (if badUsername then [BadUsernameMessage] else []) + (if registered then [RegisteredMessage] else [])
  }

  function SecretMessages(badPassword: bool, badEmail: bool): (r: seq<Message>)
    ensures BadPasswordMessage in r <==> badPassword
    ensures BadEmailMessage in r <==> badEmail
    ensures forall m :: m in r ==> m == BadPasswordMessage || m == BadEmailMessage
    ensures forall i, j :: 0 <= i < j < |r| ==> r[i] != r[j] && FieldRank(r[i].field) <= FieldRank(r[j].field)
  {
    (if badPassword then [BadPasswordMessage] else []) + (if badEmail then [BadEmailMessage] else [])
  }

  /** The guard reduces to "not patching, or the value is neither null nor undefined". */
  lemma CheckedUnlessNullish(v: Value, patch: bool)
    ensures Checked(v, patch) <==> !patch || !IsNullish(v)
  {
  }

  /** A patch that names neither a password nor an email is always valid. */
  lemma PatchWithoutFieldsIsValid(username: Value, password: Value, email: Value, usernameRegistered: bool)
    requires IsNullish(password) && IsNullish(email)
    ensures ValidateUser(username, password, email, true, usernameRegistered) == []
  {
  }

  /** A malformed and already registered username outside patch mode gets two separate username messages. */
  lemma TwoUsernameMessages(username: Value, password: Value, email: Value)
    requires BadUsername(username)
    ensures |ValidateUser(username, password, email, false, true)| >= 2
    ensures ValidateUser(username, password, email, false, true)[..2] == [BadUsernameMessage, RegisteredMessage]
  {
  }

  /** An empty-string, zero or `false` password under patch mode is checked, and fails. */
  lemma FalsyPasswordIsChecked(password: Value, email: Value)
    requires !IsNullish(password) && !Truthy(password)
    ensures BadPasswordMessage in ValidateUser(Undefined, password, email, true, false)
  {
  }
}
