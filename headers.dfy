/** The bearer token in an `Authorization` header, `header?.split(" ")[1]`. */
module Headers {
  import opened Wrappers
  import opened Types

  /** `s.split(" ")`: the maximal space-free pieces of `s`, empty ones included. */
  function Split(s: string): (parts: seq<string>)
    ensures |parts| >= 1
    ensures forall i :: 0 <= i < |parts| ==> ' ' !in parts[i]
    decreases |s|
  {
    if s == [] then [""]
    else if s[0] == ' ' then [""] + Split(s[1..])
    else
      var rest := Split(s[1..]);
      [[s[0]] + rest[0]] + rest[1..]
  }

  /** `parts.join(" ")`. */
  function Join(parts: seq<string>): string
    requires |parts| >= 1
  {
    if |parts| == 1 then parts[0] else parts[0] + " " + Join(parts[1..])
  }

  /** Splitting loses nothing: joining the pieces with spaces gives back the header. */
  lemma {:induction false} JoinSplit(s: string)
    ensures Join(Split(s)) == s
    decreases |s|
  {
    if s == [] {
    } else if s[0] == ' ' {
      JoinSplit(s[1..]);
      assert Split(s)[1..] == Split(s[1..]);
    } else {
      var rest := Split(s[1..]);
      JoinSplit(s[1..]);
      var parts := Split(s);
      assert parts[0] == [s[0]] + rest[0];
      assert parts[1..] == rest[1..];
      if |rest| == 1 {
        assert s == [s[0]] + s[1..];
      } else {
        assert Join(rest) == rest[0] + " " + Join(rest[1..]);
        assert s == [s[0]] + s[1..];
      }
    }
  }

  /** And the pieces are recovered from any join of space-free pieces. */
  lemma {:induction false} SplitJoin(parts: seq<string>)
    requires |parts| >= 1
    requires forall i :: 0 <= i < |parts| ==> ' ' !in parts[i]
    ensures Split(Join(parts)) == parts
    decreases |parts|, |parts[0]|
  {
    var p := parts[0];
    if p == [] {
      if |parts| > 1 {
        SplitJoin(parts[1..]);
        assert Join(parts) == [' '] + Join(parts[1..]);
        assert Join(parts)[1..] == Join(parts[1..]);
        assert parts == [""] + parts[1..];
      }
    } else {
      assert p[0] in p;
      var tail := [p[1..]] + parts[1..];
      assert p[1..] == tail[0];
      forall i | 0 <= i < |tail| ensures ' ' !in tail[i] {
        if i == 0 {
          assert forall c :: c in p[1..] ==> c in p;
        } else {
          assert tail[i] == parts[i];
        }
      }
      SplitJoin(tail);
      assert tail[1..] == parts[1..];
      assert Join(parts) == [p[0]] + Join(tail) by {
        if |parts| == 1 {
          assert p == [p[0]] + p[1..];
        } else {
          assert p == [p[0]] + p[1..];
          assert Join(tail) == p[1..] + " " + Join(parts[1..]);
        }
      }
      assert Join(parts)[1..] == Join(tail);
      assert ([p[0]] + p[1..]) == p;
    }
  }

  /**
   * The token a handler reads: the second space-separated piece of the header,
   * when there is one and it is not empty (an empty token is falsy).
   */
  function BearerToken(header: Option<string>): (t: Option<string>)
    ensures t.Some? <==> header.Some? && |Split(header.value)| >= 2 && Split(header.value)[1] != ""
    ensures t.Some? ==> t.value == Split(header.value)[1] && t.value != "" && ' ' !in t.value
  {
    if header.None? then None
    else
      var parts := Split(header.value);
      if |parts| >= 2 && parts[1] != "" then Some(parts[1]) else None
  }

  /** The scheme word is never looked at: "Bearer t" and "Basic t" carry the same token. */
  lemma SchemeIgnored(scheme: string, other: string, token: string)
    requires ' ' !in scheme && ' ' !in other && ' ' !in token && token != ""
    ensures BearerToken(Some(scheme + " " + token)) == BearerToken(Some(other + " " + token)) == Some(token)
  {
    SplitJoin([scheme, token]);
    SplitJoin([other, token]);
    assert Join([scheme, token]) == scheme + " " + token;
    assert Join([other, token]) == other + " " + token;
  }

  /** The claims of the request's token when it has one and it verifies. */
  function Verified(header: Option<string>, verify: string -> Option<Claims>): (c: Option<Claims>)
    ensures BearerToken(header).None? ==> c.None?
    ensures BearerToken(header).Some? ==> c == verify(BearerToken(header).value)
  {
    match BearerToken(header)
    case None => None
    case Some(t) => verify(t)
  }
}
