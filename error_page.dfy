/** The page the auth routes redirect to on failure: it shows the `message`
    query parameter, or a fixed text when that parameter is absent or empty. */
module ErrorPage {
  import opened Common
  import Uri

  const DefaultMessage := "An error occurred"

  /** The text the page displays for the query string of its URL. */
  function Shown(query: string): (text: string)
    ensures Uri.Get(Uri.Parse(query), "message").None? ==> text == DefaultMessage
  {
    OrElse(Uri.Get(Uri.Parse(query), "message"), DefaultMessage)
  }

  /** A query made of one encoded pair `key=value` is read back as that pair. */
  lemma SinglePair(key: string, value: string)
    ensures Uri.Parse(Uri.Encode(key) + "=" + Uri.Encode(value)) == [(key, value)]
  {
    Uri.ParseLastPair(key, value);
  }

  /** A `message` parameter written with `encodeURIComponent` is shown as it was
      written; an empty one falls back to the default text. */
  lemma ShowsEncodedMessage(m: string)
    ensures Shown("message=" + Uri.Encode(m)) == if m == "" then DefaultMessage else m
  {
    var q := "message=" + Uri.Encode(m);
    assert "message=" == "message" + "=";
    assert q == "message" + "=" + Uri.Encode(m);
    MessageKeyEncoded();
    SinglePair("message", m);
    assert Uri.Parse(q) == [("message", m)];
    assert Uri.Get([("message", m)], "message") == Some(m);
  }

  lemma MessageKeyEncoded()
    ensures Uri.Encode("message") == "message"
  {
  }

  /** A query carrying the text under any other key shows the default. */
  lemma IgnoresOtherKey(key: string, m: string)
    requires key != "message"
    ensures Shown(Uri.Encode(key) + "=" + Uri.Encode(m)) == DefaultMessage
  {
    SinglePair(key, m);
  }
}
