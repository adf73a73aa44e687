/**
 The text patterns that configuration checks and table columns demand.
 */
module Identifiers {

  predicate Lower(c: char) { 'a' <= c <= 'z' }
  predicate Digit(c: char) { '0' <= c <= '9' }
  predicate Alphanumeric(c: char) { Lower(c) || 'A' <= c <= 'Z' || Digit(c) }

  /** An identifier of a configuration or a table: two to 256 characters. */
  predicate SafeId(s: string) {
    2 <= |s| <= 256 && Alphanumeric(s[0]) && forall i :: 0 < i < |s| ==> Alphanumeric(s[i]) || s[i] in "._:@/-"
  }

  /** An item of a checked list: two to 128 characters, lower case throughout. */
  predicate ListItem(s: string) {
    2 <= |s| <= 128 && Lower(s[0]) && forall i :: 0 < i < |s| ==> Lower(s[i]) || Digit(s[i]) || s[i] in "_.:-"
  }

  predicate Distinct<T(==)>(s: seq<T>) {
    forall i, j :: 0 <= i < j < |s| ==> s[i] != s[j]
  }

  /** `authentication_string_list_is_valid`. */
  predicate StringList(s: seq<string>, most: nat) {
    |s| <= most && Distinct(s) && forall i :: 0 <= i < |s| ==> ListItem(s[i])
  }

  /** An origin: the scheme, and a host without path, query, fragment or space. */
  predicate Origin(s: string) {
    |s| > 8 && s[..8] == "https://" && forall i :: 8 <= i < |s| ==> s[i] !in "/?# \t\r\n"
  }

  predicate BoundedText(s: string, most: nat) {
    1 <= |s| <= most && forall i :: 0 <= i < |s| ==> s[i] !in "\0\r\n"
  }

  predicate InvitationId(s: string) {
    15 <= |s| <= 128 && s[..7] == "invite_" && Alphanumeric(s[7]) &&
    forall i :: 8 <= i < |s| ==> Alphanumeric(s[i]) || s[i] in "._:-"
  }

  /** A base64url SHA-256 thumbprint. */
  predicate ThumbprintText(s: string) {
    |s| == 43 && forall i :: 0 <= i < |s| ==> Alphanumeric(s[i]) || s[i] in "_-"
  }

  predicate AccountOn(chain: string, s: string) {
    |s| == |chain| + 42 && s[..|chain| + 2] == chain + "0x" &&
    forall i :: |chain| + 2 <= i < |s| ==> Digit(s[i]) || 'a' <= s[i] <= 'f'
  }

  /** A canonical account on one of the approved chains. */
  predicate ApprovedAccount(s: string) {
    AccountOn("eip155:84532:", s) || AccountOn("eip155:1952:", s) || AccountOn("eip155:97:",
              s) || AccountOn("eip155:56:", s)
  }

  /** A list item can be an identifier. */
  lemma ListItemSafe(s: string)
    requires ListItem(s)
    ensures SafeId(s)
  {
  }
}
