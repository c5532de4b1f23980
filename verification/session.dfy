/** Finding the signed-in account: the search `getCurrentAccount` runs over
    the stored accounts once it has the session's e-mail and the parsed
    account list. */
module Session {
  import opened Wrappers
  import opened JsString
  import opened AccountView

  /** `(a.email || '').toLowerCase() === key.toLowerCase()`. */
  predicate EmailMatches(a: Account, key: string) {
    Lower(a.email.GetOr("")) == Lower(key)
  }

  /** An account matches a key exactly when its e-mail (empty when
      missing) has the key's length and agrees with it character by
      character up to ASCII case. */
  lemma EmailMatchesIff(a: Account, key: string)
    ensures EmailMatches(a, key) <==>
      var e := a.email.GetOr("");
      |e| == |key| && forall i :: 0 <= i < |e| ==> SameIgnoringCase(e[i], key[i])
  {
    LowerEqualIff(a.email.GetOr(""), key);
  }

  /** `accounts.find(...)`: the first account whose e-mail matches `key`
      ignoring ASCII case, and none exactly when no account matches. */
  function FindAccount(accounts: seq<Account>, key: string): (r: Option<Account>)
    ensures r.None? <==> forall i :: 0 <= i < |accounts| ==> !EmailMatches(accounts[i], key)
    ensures r.Some? ==> exists i :: (
      && 0 <= i < |accounts| && accounts[i] == r.value
      && EmailMatches(accounts[i], key)
      && forall j :: 0 <= j < i ==> !EmailMatches(accounts[j], key))
  {
    if |accounts| == 0 then None
    else if EmailMatches(accounts[0], key) then Some(accounts[0])
    else
      var r := FindAccount(accounts[1..], key);
      assert forall i :: 1 <= i < |accounts| ==> accounts[i] == accounts[1..][i - 1];
      r
  }

  /** The signed-in account: none when the session holds no e-mail or an
      empty one, otherwise the first account with that e-mail. */
  function CurrentAccount(accounts: seq<Account>, current: Option<string>): (r: Option<Account>)
    ensures current.None? || current.value == "" ==> r.None?
    ensures r.Some? ==> r.value in accounts && EmailMatches(r.value, current.value)
    ensures current.Some? && current.value != "" ==> r == FindAccount(accounts, current.value)
  {
    if current.None? || current.value == "" then None
    else FindAccount(accounts, current.value)
  }

  /** The session e-mail's case does not matter: any spelling with the same
      lower-case form finds the same account. */
  lemma {:induction false} FindAccountIgnoresCase(accounts: seq<Account>, k1: string, k2: string)
    requires Lower(k1) == Lower(k2)
    ensures FindAccount(accounts, k1) == FindAccount(accounts, k2)
  {
    if |accounts| > 0 {
      FindAccountIgnoresCase(accounts[1..], k1, k2);
    }
  }

  /** In particular the upper-cased session e-mail finds the same account. */
  lemma CurrentAccountUpperCase(accounts: seq<Account>, key: string)
    ensures CurrentAccount(accounts, Some(Upper(key))) == CurrentAccount(accounts, Some(key))
  {
    LowerOfUpper(key);
    FindAccountIgnoresCase(accounts, Upper(key), key);
  }
}
