/** The Cloud Storage event payload (event/event.go) and the URL of the object it names. */
module Event {
  import opened Common

  /** StorageEvent: the bucket and the object name a Cloud Storage notification carries. */
  datatype StorageEvent = StorageEvent(bucket: string, name: string)
  {
    /** URL: the gs:// URL of the object: the scheme, the bucket, '/', then
        the object name, six characters longer than the two together. */
    function URL(): (u: string)
      ensures |u| == |bucket| + |name| + 6
      ensures u[..5] == Scheme
      ensures u[5..5 + |bucket|] == bucket
      ensures u[5 + |bucket|] == '/'
      ensures u[|u| - |name|..] == name
    {
      Scheme + bucket + "/" + name
    }
  }

  /** The scheme prefix every event URL starts with. */
  const Scheme: string := "gs://"

  /** The first position of c in s, if any. */
  function IndexOf(s: string, c: char): (r: Option<nat>)
    ensures r.Some? ==> r.value < |s| && s[r.value] == c && c !in s[..r.value]
    ensures r.None? ==> c !in s
  {
    if |s| == 0 then None
    else if s[0] == c then Some(0)
    else match IndexOf(s[1..], c)
      case None => None
      case Some(i) => assert s[..i + 1] == [s[0]] + s[1..][..i]; Some(i + 1)
  }

  /** Reading an event back out of a gs:// URL: the bucket runs up to the first '/'. */
  function ParseURL(u: string): Option<StorageEvent> {
    if |u| < |Scheme| || u[..|Scheme|] != Scheme then None
    else
      var rest := u[|Scheme|..];
      match IndexOf(rest, '/')
      case None => None
      case Some(i) => Some(StorageEvent(rest[..i], rest[i + 1..]))
  }

  /** For a bucket without '/', the URL gives back the event it came from. */
  lemma {:induction false} ParseURLOfURL(e: StorageEvent)
    requires '/' !in e.bucket
    ensures ParseURL(e.URL()) == Some(e)
  {
    var u := e.URL();
    var rest := u[|Scheme|..];
    assert rest == e.bucket + "/" + e.name;
    var i := IndexOf(rest, '/');
    assert rest[|e.bucket|] == '/';
    assert rest[..|e.bucket|] == e.bucket;
    assert rest[i.value + 1..] == e.name;
  }

  /** Every URL that parses is the URL of the event it parses to, and that
      event's bucket has no '/'. */
  lemma URLOfParseURL(u: string)
    requires ParseURL(u).Some?
    ensures '/' !in ParseURL(u).value.bucket
    ensures ParseURL(u).value.URL() == u
  {
    var rest := u[|Scheme|..];
    var i := IndexOf(rest, '/').value;
    assert rest == rest[..i] + "/" + rest[i + 1..];
    assert u == u[..|Scheme|] + rest;
  }
}
