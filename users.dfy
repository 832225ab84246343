/**
 * The user look-ups and the partial update of users.js. The query executor is a parameter,
 * as in `Db`; `bcrypt.hash` and `xss` are uninterpreted functions from a value to the text
 * they produce.
 */
module Users {
  import opened Wrappers
  import opened Js
  import opened Seqs
  import opened Db

  /** A row of the `users` table. */
  datatype UserRow = UserRow(id: int, username: string, password: string, email: string, admin: bool)

  const ByUsernameQuery := "SELECT * FROM users WHERE username = $1"
  const ByIdQuery := "SELECT * FROM users WHERE id = $1"

  /** `result.rowCount === 1 ? result.rows[0] : null`. */
  function SingleRow(rows: seq<UserRow>): (r: Option<UserRow>)
    ensures r.Some? <==> |rows| == 1
    ensures r.Some? ==> rows == [r.value]
  {
    if |rows| == 1 then Some(rows[0]) else None
  }

  /** `findByUsername(username)`: a row only when the look-up finds exactly one. */
  function FindByUsername(username: Value, exec: Statement -> seq<UserRow>): (r: Option<UserRow>)
    ensures r.Some? <==> |exec(Statement(ByUsernameQuery, [username]))| == 1
    ensures r.Some? ==> exec(Statement(ByUsernameQuery, [username])) == [r.value]
  {
    SingleRow(exec(Statement(ByUsernameQuery, [username])))
  }

  /** `findById(id)`: `null` without a query for an id that `Number` does not make an integer. */
  function FindById(id: Value, exec: Statement -> seq<UserRow>): (r: Option<UserRow>)
    ensures !IntegerLike(id) ==> r.None?
    ensures r.Some? <==> IntegerLike(id) && |exec(Statement(ByIdQuery, [id]))| == 1
    ensures r.Some? ==> exec(Statement(ByIdQuery, [id])) == [r.value]
  {
    if !IntegerLike(id) then None else SingleRow(exec(Statement(ByIdQuery, [id])))
  }

  /** A rejected id gives the same answer whatever the table holds: no query result is consulted. */
  lemma FindByIdRejectsBeforeQuery(id: Value, exec1: Statement -> seq<UserRow>, exec2: Statement -> seq<UserRow>)
    requires !IntegerLike(id)
    ensures FindById(id, exec1) == FindById(id, exec2) == None
  {
  }

  // ---------------------------------------------------------------------------
  // updateUser

  /** `isset` of `updateUser`: `typeof f` is string, number or boolean. */
  predicate IsSet(v: Value)
  {
    v.Str? || v.Num? || v.Bool?
  }

  /** `isset(v) ? name : null`. */
  function FieldIf(v: Value, name: string): Value
  {
    if IsSet(v) then Str(name) else Null
  }

  /** `isset(v) ? xss(v) : null`. */
  function SanitizedIf(v: Value, xss: Value -> string): Value
  {
    if IsSet(v) then Str(xss(v)) else Null
  }

  /** The `fields` array: one slot per column, in the order username, password, email, admin. */
  function UserFields(username: Value, password: Value, email: Value, admin: Value): (r: seq<Value>)
    ensures |r| == 4
    ensures (r[0].Str? <==> IsSet(username)) && (r[1].Str? <==> IsSet(password))
            && (r[2].Str? <==> IsSet(email)) && (r[3].Str? <==> IsSet(admin))
    ensures forall i :: 0 <= i < 4 ==> r[i] == Null || r[i] == Str(["username", "password", "email", "admin"][i])
  {
    [FieldIf(username, "username"), FieldIf(password, "password"), FieldIf(email, "email"), FieldIf(admin, "admin")]
  }

  /** A one-element list when `b` holds, else empty. */
  function When<T>(b: bool, x: T): seq<T>
  {
    if b then [x] else []
  }

  /** The admin value that reaches the update: a sanitised empty string becomes `'false'`. */
  function AdminValue(admin: Value, xss: Value -> string): (r: Value)
    ensures r.Str? <==> IsSet(admin)
    ensures !IsSet(admin) ==> r == Null
    ensures r != Str("")
    ensures IsSet(admin) && xss(admin) != "" ==> r == Str(xss(admin))
    ensures IsSet(admin) && xss(admin) == "" ==> r == Str("false")
  {
    if IsSet(admin) && xss(admin) == "" then Str("false") else SanitizedIf(admin, xss)
  }

  /** The `values` array as it stands when `conditionalUpdate` is called. */
  function UserValues(username: Value, password: Value, email: Value, admin: Value,
                      hash: Value -> string, xss: Value -> string): (r: seq<Value>)
    ensures |r| == 4
    ensures r[1] == (if Truthy(password) then Str(hash(password)) else Null)
    ensures r[3].Str? <==> IsSet(admin)
    ensures r[3] != Str("")
  {
    [SanitizedIf(username, xss), if Truthy(password) then Str(hash(password)) else Null,
     SanitizedIf(email, xss), AdminValue(admin, xss)]
  }

  /** What `updateUser` resolves to: `null`, a thrown length error, or `result.rows[0]` (absent when no row matched). */
  datatype UserUpdate = NoUser | Threw | Updated(row: Option<UserRow>)

  /**
   * The `values` array of `updateUser`, built step by step: the hashed password only for a truthy
   * password, and the admin slot overwritten with `'false'` when it sanitises to the empty string.
   */
  method BuildValues(username: Value, password: Value, email: Value, admin: Value,
                     hash: Value -> string, xss: Value -> string)
    returns (values: seq<Value>)
    ensures values == UserValues(username, password, email, admin, hash, xss)
  {
    var hashedPassword := Null;
    if Truthy(password) {
      hashedPassword := Str(hash(password));
    }
    values := [SanitizedIf(username, xss), hashedPassword, SanitizedIf(email, xss), SanitizedIf(admin, xss)];
    if values[3] == Str("") {
      values := values[3 := Str("false")];
    }
  }

  /**
   * `updateUser(id, username, password, email, admin)`: the id guard, then the `fields` and
   * `values` arrays (the hashed password assigned only for a truthy password, the admin slot
   * overwritten when it sanitises to the empty string), then `conditionalUpdate`.
   */
  method UpdateUser(id: Value, username: Value, password: Value, email: Value, admin: Value,
                    hash: Value -> string, xss: Value -> string, exec: Statement -> seq<UserRow>)
    returns (r: UserUpdate)
    ensures !IntegerLike(id) ==> r == NoUser
    ensures IntegerLike(id) ==>
              match ConditionalUpdate("users", id, UserFields(username, password, email, admin),
                                      UserValues(username, password, email, admin, hash, xss))
              case NothingToUpdate => r == NoUser
              case Mismatch => r == Threw
              case Issue(_, st) => r == Updated(FirstRow(exec(st)))
  {
    if !IntegerLike(id) {
      return NoUser;
    }
    var fields := [FieldIf(username, "username"), FieldIf(password, "password"),
                   FieldIf(email, "email"), FieldIf(admin, "admin")];
    var values := BuildValues(username, password, email, admin, hash, xss);
    match ConditionalUpdate("users", id, fields, values)
    case NothingToUpdate =>
      r := NoUser;
    case Mismatch =>
      r := Threw;
    case Issue(_, st) =>
      r := Updated(FirstRow(exec(st)));
  }

  /** The columns named in the update: exactly the set arguments, in the fixed order username, password, email, admin. */
  lemma UpdatedColumns(username: Value, password: Value, email: Value, admin: Value)
    ensures StringFields(UserFields(username, password, email, admin))
            == When(IsSet(username), Str("username")) + When(IsSet(password), Str("password"))
               + When(IsSet(email), Str("email")) + When(IsSet(admin), Str("admin"))
  {
    FilterFour(FieldIf(username, "username"), FieldIf(password, "password"),
               FieldIf(email, "email"), FieldIf(admin, "admin"), IsString);
  }

  /** The values bound after the id: sanitised username, hashed password, sanitised email and admin, each only when present. */
  lemma UpdatedValues(username: Value, password: Value, email: Value, admin: Value,
                      hash: Value -> string, xss: Value -> string)
    ensures ScalarValues(UserValues(username, password, email, admin, hash, xss))
            == When(IsSet(username), Str(xss(username))) + When(Truthy(password), Str(hash(password)))
               + When(IsSet(email), Str(xss(email))) + When(IsSet(admin), AdminValue(admin, xss))
  {
    FilterFour(SanitizedIf(username, xss), if Truthy(password) then Str(hash(password)) else Null,
               SanitizedIf(email, xss), AdminValue(admin, xss), IsScalar);
  }

  function Count(b: bool): nat
  {
    if b then 1 else 0
  }

  /** Nothing is updated exactly when none of the four arguments is a string, number or boolean. */
  lemma NothingToUpdateIff(id: Value, username: Value, password: Value, email: Value, admin: Value,
                           hash: Value -> string, xss: Value -> string)
    ensures ConditionalUpdate("users", id, UserFields(username, password, email, admin),
                              UserValues(username, password, email, admin, hash, xss)).NothingToUpdate?
            <==> !IsSet(username) && !IsSet(password) && !IsSet(email) && !IsSet(admin)
  {
    UpdatedColumns(username, password, email, admin);
  }

  /**
   * The length check throws exactly when something is set and the password slot is unbalanced:
   * the field is present (`isset`) but the value is not (`if (password)`), or the reverse.
   */
  lemma ThrowsIff(id: Value, username: Value, password: Value, email: Value, admin: Value,
                  hash: Value -> string, xss: Value -> string)
    ensures ConditionalUpdate("users", id, UserFields(username, password, email, admin),
                              UserValues(username, password, email, admin, hash, xss)).Mismatch?
            <==> (IsSet(username) || IsSet(password) || IsSet(email) || IsSet(admin)) && IsSet(password) != Truthy(password)
  {
    UpdatedColumns(username, password, email, admin);
    UpdatedValues(username, password, email, admin, hash, xss);
    var fs := StringFields(UserFields(username, password, email, admin));
    var vs := ScalarValues(UserValues(username, password, email, admin, hash, xss));
    assert |fs| == Count(IsSet(username)) + Count(IsSet(password)) + Count(IsSet(email)) + Count(IsSet(admin));
    assert |vs| == Count(IsSet(username)) + Count(Truthy(password)) + Count(IsSet(email)) + Count(IsSet(admin));
  }

  /** An empty-string password is present as a field but has no value, so the update throws. */
  lemma EmptyPasswordThrows(id: Value, username: Value, email: Value, admin: Value,
                            hash: Value -> string, xss: Value -> string)
    ensures ConditionalUpdate("users", id, UserFields(username, Str(""), email, admin),
                              UserValues(username, Str(""), email, admin, hash, xss)).Mismatch?
  {
    ThrowsIff(id, username, Str(""), email, admin, hash, xss);
  }

  /** With all four arguments given, all four columns are named, in order. */
  lemma FullColumns(username: string, password: string, email: string, admin: bool)
    ensures StringFields(UserFields(Str(username), Str(password), Str(email), Bool(admin)))
            == [Str("username"), Str("password"), Str("email"), Str("admin")]
  {
    UpdatedColumns(Str(username), Str(password), Str(email), Bool(admin));
  }

  /** With all four arguments given and a non-empty password, all four values are bound, in order. */
  lemma FullValues(username: string, password: string, email: string, admin: bool,
                   hash: Value -> string, xss: Value -> string)
    requires password != ""
    ensures ScalarValues(UserValues(Str(username), Str(password), Str(email), Bool(admin), hash, xss))
            == [Str(xss(Str(username))), Str(hash(Str(password))), Str(xss(Str(email))), AdminValue(Bool(admin), xss)]
  {
    UpdatedValues(Str(username), Str(password), Str(email), Bool(admin), hash, xss);
  }

  /** A full update with a non-empty password sets the four columns in order, from `$2` on. */
  lemma FullUpdateClauses(id: Value, username: string, password: string, email: string, admin: bool,
                          hash: Value -> string, xss: Value -> string)
    requires password != ""
    ensures var u := ConditionalUpdate("users", id, UserFields(Str(username), Str(password), Str(email), Bool(admin)),
                                       UserValues(Str(username), Str(password), Str(email), Bool(admin), hash, xss));
            u.Issue? && |u.clauses| == 4
            && u.clauses[0] == "username" + " = " + Placeholder(2) && u.clauses[1] == "password" + " = " + Placeholder(3)
            && u.clauses[2] == "email" + " = " + Placeholder(4) && u.clauses[3] == "admin" + " = " + Placeholder(5)
  {
    FullColumns(username, password, email, admin);
    FullValues(username, password, email, admin, hash, xss);
  }

  /** A full update with a non-empty password binds the id, then the four new values in column order. */
  lemma FullUpdateParams(id: Value, username: string, password: string, email: string, admin: bool,
                         hash: Value -> string, xss: Value -> string)
    requires password != ""
    ensures var u := ConditionalUpdate("users", id, UserFields(Str(username), Str(password), Str(email), Bool(admin)),
                                       UserValues(Str(username), Str(password), Str(email), Bool(admin), hash, xss));
            u.Issue?
            && u.st.params == [id] + [Str(xss(Str(username))), Str(hash(Str(password))), Str(xss(Str(email))),
                                      AdminValue(Bool(admin), xss)]
  {
    FullColumns(username, password, email, admin);
    FullValues(username, password, email, admin, hash, xss);
  }
}
