/** The input checks the dialogs run before they call the backend. The TRC
    address check is written twice in the program, once for the users page
    (src/pages/UsersPage.tsx:166) and once for the approval queue
    (src/pages/PendingUsersPage.tsx:77); it is defined once here. */
module Validation {
  /** How a submit handler treats its input: `Skip` returns at once without any
      effect, `Invalid` reports the input as invalid without calling the backend,
      `Accept` calls the backend with the carried value. */
  datatype Check<T> = Skip | Invalid | Accept(value: T)

  /** The TRC-20 address test: starts with 'T' and is exactly 34 characters.
      Nothing else of the address format (base58 alphabet, checksum) is tested. */
  predicate IsTrcAddress(s: string) {
    |s| == 34 && s[0] == 'T'
  }

  /** `if (!trcAddress) return;` followed by the format test. */
  function CheckTrc(s: string): (c: Check<string>)
    ensures c.Skip? <==> s == ""
    ensures c.Accept? <==> IsTrcAddress(s)
    ensures c.Accept? ==> c.value == s
  {
    if s == "" then Skip
    else if IsTrcAddress(s) then Accept(s)
    else Invalid
  }
}
