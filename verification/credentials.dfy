/** `genCamputConfig`: the credential record handed to the upload tool.
    Only the record value is modelled, not its JSON bytes. */
module Credentials {
  import opened Results

  /** The upload tool's client configuration: `{auth, server}`. */
  datatype SimpleConfig = SimpleConfig(auth: string, server: string)

  /** The authentication scheme tag the upload tool expects. */
  const Scheme := "userpass:"

  /** The `userpass:<user>:<password>` auth string. */
  function FormatAuth(user: string, password: string): (a: string)
    ensures |a| == |Scheme| + |user| + 1 + |password|
    ensures a[..|Scheme|] == Scheme
    ensures a[|Scheme|..|Scheme| + |user|] == user
    ensures a[|Scheme| + |user|] == ':'
    ensures a[|Scheme| + |user| + 1..] == password
  {
    Scheme + user + ":" + password
  }

  /** Fails when any credential is empty; otherwise builds the record whose
      auth string is `userpass:<user>:<password>` and whose server is
      `server`. A user without `:` can be read back from that string. */
  function GenCamputConfig(user: string, password: string, server: string): (r: Result<SimpleConfig>)
    ensures r.Err? <==> user == "" || password == "" || server == ""
    ensures r.Err? ==> r.error == MissingCredentials
    ensures r.Ok? ==> r.value.server == server
    ensures r.Ok? ==> r.value.auth == FormatAuth(user, password)
    ensures r.Ok? ==> ':' !in user ==> SplitAuth(r.value.auth) == Some((user, password))
  {
    if user == "" || password == "" || server == "" then Err(MissingCredentials)
    else
      var auth := FormatAuth(user, password);
      assert ':' !in user ==> SplitAuth(auth) == Some((user, password)) by {
        if ':' !in user {
          AuthRoundTrip(user, password);
        }
      }
      Ok(SimpleConfig(auth, server))
  }

  /** Index of the first `c` in `s`, or `|s|` when there is none. */
  function IndexOf(s: string, c: char): (i: nat)
    ensures i <= |s|
    ensures i < |s| ==> s[i] == c
    ensures forall j :: 0 <= j < i ==> s[j] != c
  {
    if s == [] then 0
    else if s[0] == c then 0
    else 1 + IndexOf(s[1..], c)
  }

  /** A left inverse of `FormatAuth` for users without `:`: the scheme
      tag, then the user up to the first `:`, then the rest as the
      password. It is a device for stating what the auth string determines,
      not a model of how the upload tool parses it. */
  function SplitAuth(a: string): (r: Option<(string, string)>)
    ensures r.Some? ==> FormatAuth(r.value.0, r.value.1) == a && ':' !in r.value.0
  {
    if |a| < |Scheme| || a[..|Scheme|] != Scheme then None
    else
      var rest := a[|Scheme|..];
      var i := IndexOf(rest, ':');
      if i == |rest| then None
      else
        assert a == Scheme + rest;
        assert rest == rest[..i] + ":" + rest[i + 1..];
        Some((rest[..i], rest[i + 1..]))
  }

  /** The auth string determines user and password as long as the user
      contains no `:`. */
  lemma AuthRoundTrip(user: string, password: string)
    requires ':' !in user
    ensures SplitAuth(FormatAuth(user, password)) == Some((user, password))
  {
    var a := FormatAuth(user, password);
    var rest := a[|Scheme|..];
    assert rest == user + ":" + password;
    assert IndexOf(rest, ':') == |user|;
  }

  /** A `:` in the user makes two different credential pairs produce the
      same auth string: the scan stores values with no spaces and no upper
      case, but colons pass through. Splitting at the first `:` recovers the
      colon-free pair, never the other one. */
  lemma ColonInUserIsAmbiguous()
    ensures FormatAuth("a:b", "c") == FormatAuth("a", "b:c")
    ensures SplitAuth(FormatAuth("a:b", "c")) == Some(("a", "b:c"))
  {
    AuthRoundTrip("a", "b:c");
  }
}
