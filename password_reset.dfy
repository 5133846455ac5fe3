/** The POST side of the password-reset page: the checks a submitted form
    goes through, in order, and the two updates made when all pass. */
module PasswordReset {
  import opened Common

  /** A password_reset_tokens row, keyed by its (unique) token text.
      `expiresAt` is the parsed expiry instant on the same scale as `now`. */
  datatype TokenRow = TokenRow(userId: int, used: bool, expiresAt: int)

  /** The two tables involved: users' password hashes by id, and the reset
      tokens by token text. */
  datatype ResetStore = ResetStore(passwords: map<int, string>, tokens: map<string, TokenRow>)

  /** Each answer of the page, in the order the checks run. */
  datatype ResetOutcome =
    | FieldsRequired
    | Mismatch
    | TooShort
    | InvalidLink
    | AlreadyUsed
    | LinkExpired
    | PasswordChanged

  const MinPasswordLength: nat := 6

  /** The token joined with its user: present only when the token exists
      and its user does. */
  predicate KnownToken(st: ResetStore, token: string) {
    token in st.tokens && st.tokens[token].userId in st.passwords
  }

  /** Handles a submitted form.  Both fields are stripped first; `newHash`
      is the salted hash of the stripped password and `now` the current
      instant, both supplied by the caller. */
  function ResetPassword(st: ResetStore, token: string, password: string, confirm: string,
                         newHash: string, now: int): (r: (ResetOutcome, ResetStore))
    // every refusal leaves both tables as they were
    ensures r.0 != PasswordChanged ==> r.1 == st
    // a change sets the token's user's hash and marks the token used, and
    // touches no other user or token
    ensures r.0 == PasswordChanged ==>
              && KnownToken(st, token)
              && r.1.passwords.Keys == st.passwords.Keys && r.1.tokens.Keys == st.tokens.Keys
              && r.1.passwords[st.tokens[token].userId] == newHash
              && r.1.tokens[token] == st.tokens[token].(used := true)
              && (forall id :: id in st.passwords && id != st.tokens[token].userId ==>
                    r.1.passwords[id] == st.passwords[id])
              && (forall t :: t in st.tokens && t != token ==> r.1.tokens[t] == st.tokens[t])
  {
    var p := Strip(password);
    var c := Strip(confirm);
    if p == "" || c == "" then (FieldsRequired, st)
    else if p != c then (Mismatch, st)
    else if |p| < MinPasswordLength then (TooShort, st)
    else if !KnownToken(st, token) then (InvalidLink, st)
    else
      var row := st.tokens[token];
      if row.used then (AlreadyUsed, st)
      else if now > row.expiresAt then (LinkExpired, st)
      else
        (PasswordChanged, ResetStore(st.passwords[row.userId := newHash],
                                     st.tokens[token := row.(used := true)]))
  }

  /** The checks run in this order, and each answer is given exactly when
      every earlier check passed and its own failed. */
  lemma RejectionOrder(st: ResetStore, token: string, password: string, confirm: string,
                       newHash: string, now: int)
    ensures var o := ResetPassword(st, token, password, confirm, newHash, now).0;
            var p, c := Strip(password), Strip(confirm);
            var fieldsOk := p != "" && c != "" && p == c && |p| >= MinPasswordLength;
            && (o == FieldsRequired <==> AllSpace(password) || AllSpace(confirm))
            && (o == Mismatch <==> p != "" && c != "" && p != c)
            && (o == TooShort <==> p != "" && p == c && |p| < MinPasswordLength)
            && (o == InvalidLink <==> fieldsOk && !KnownToken(st, token))
            && (o == AlreadyUsed <==> fieldsOk && KnownToken(st, token) && st.tokens[token].used)
            && (o == LinkExpired <==> fieldsOk && KnownToken(st, token) && !st.tokens[token].used
                                      && now > st.tokens[token].expiresAt)
            && (o == PasswordChanged <==> fieldsOk && KnownToken(st, token) && !st.tokens[token].used
                                          && now <= st.tokens[token].expiresAt)
  {
    StripEmptyIffAllSpace(password);
    StripEmptyIffAllSpace(confirm);
  }

  /** A link works once: after a successful reset, any later submission
      with the same token is refused and changes nothing. */
  lemma LinkWorksOnce(st: ResetStore, token: string, password: string, confirm: string,
                      newHash: string, now: int,
                      password2: string, confirm2: string, newHash2: string, later: int)
    requires ResetPassword(st, token, password, confirm, newHash, now).0 == PasswordChanged
    ensures var st1 := ResetPassword(st, token, password, confirm, newHash, now).1;
            var r2 := ResetPassword(st1, token, password2, confirm2, newHash2, later);
            r2.0 != PasswordChanged && r2.1 == st1
  {
    var st1 := ResetPassword(st, token, password, confirm, newHash, now).1;
    assert KnownToken(st1, token) && st1.tokens[token].used;
  }

  /** A successful reset took two equal stripped entries of at least six
      characters, for a known, unused, unexpired token. */
  lemma ChangeRequiresValidForm(st: ResetStore, token: string, password: string, confirm: string,
                                newHash: string, now: int)
    requires ResetPassword(st, token, password, confirm, newHash, now).0 == PasswordChanged
    ensures Strip(password) == Strip(confirm) && |Strip(password)| >= MinPasswordLength
    ensures !AllSpace(password)
    ensures KnownToken(st, token) && !st.tokens[token].used && now <= st.tokens[token].expiresAt
  {
    StripEmptyIffAllSpace(password);
  }
}
