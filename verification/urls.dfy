/** Whether `new URL(…)` accepts the `http://<host>:<port>` addresses the
    emulator probes build. The WHATWG URL Standard's port state (section
    4.4, "URL parsing", of the URL Living Standard) reads a run of ASCII
    digits after the host's ':' and fails on any other character before
    the end of the authority, or on a port above 65535. The hosts used here
    (`localhost`, `127.0.0.1`) always parse, so only the port text decides. */
module Urls {
  import opened Text

  const MaxPort := 65535

  /** The characters that end the port state for an http address: the
      start of a path, query or fragment, and the backslash of special
      schemes. */
  predicate EndsPort(c: char)
  {
    c == '/' || c == '?' || c == '#' || c == '\\'
  }

  /** The text after the host's ':' is accepted by the port state: its
      leading digits (possibly none) reach the end or a character that ends
      the port, and their value is at most 65535. */
  predicate PortTextParses(t: string)
  {
    var k := RunLength(t, IsDigit);
    (k == |t| || EndsPort(t[k])) && DigitsValue(t[..k]) <= MaxPort
  }

  /** A rendered port number parses exactly when it lies in 0..65535. */
  lemma NumberPortParses(n: int)
    ensures PortTextParses(IntToString(n)) <==> 0 <= n <= MaxPort
  {
    if n < 0 {
      var t := IntToString(n);
      assert t[0] == '-';
      assert RunLength(t, IsDigit) == 0;
    } else {
      var t := NatToString(n);
      AllDigitsRun(t);
      assert t[..|t|] == t;
      NatToStringValue(n);
    }
  }

  /** A string of digits is one run. */
  lemma {:induction false} AllDigitsRun(t: string)
    requires AllDigits(t)
    ensures RunLength(t, IsDigit) == |t|
  {
    if |t| > 0 {
      assert AllDigits(t[1..]) by {
        forall i | 0 <= i < |t[1..]|
          ensures IsDigit(t[1..][i])
        {
          assert t[1..][i] == t[i + 1];
        }
      }
      AllDigitsRun(t[1..]);
    }
  }

  /** A port text starting with a space is always rejected. */
  lemma SpacedPortRejected(t: string)
    ensures !PortTextParses(" " + t)
  {
    var s := " " + t;
    assert s[0] == ' ';
    assert RunLength(s, IsDigit) == 0;
  }

  /** `undefined` is not a port. */
  lemma UndefinedRejected()
    ensures !PortTextParses("undefined")
  {
    var s := "undefined";
    assert s[0] == 'u';
    assert RunLength(s, IsDigit) == 0;
  }

  /** The host characters this model reads: ASCII letters, digits, '-' and
      '.', which covers names such as `localhost` and dotted addresses such
      as `127.0.0.1`. */
  predicate IsHostChar(c: char)
  {
    ('a' <= c <= 'z') || ('A' <= c <= 'Z') || IsDigit(c) || c == '-' || c == '.'
  }

  /** The authority after the scheme's `//`: a non-empty host, then the end,
      a character that ends the port, or ':' and a port text that parses. */
  predicate AuthorityParses(a: string)
  {
    var h := RunLength(a, IsHostChar);
    0 < h && (h == |a| || EndsPort(a[h]) || (a[h] == ':' && PortTextParses(a[h + 1..])))
  }

  const HttpPrefix := "http://"
  const HttpsPrefix := "https://"

  /** `request(url, …)` reaches the network: `new URL(url)` accepts the
      address and its protocol is `http:` or `https:`. Otherwise the URL
      constructor throws, or `http.request` throws for the foreign protocol
      (`localhost:4200` parses with the scheme `localhost:`), inside the
      promise's executor, and neither callback is ever called. */
  predicate Requestable(url: string)
  {
    || (HttpPrefix <= url && AuthorityParses(url[|HttpPrefix|..]))
    || (HttpsPrefix <= url && AuthorityParses(url[|HttpsPrefix|..]))
  }

  /** `http://localhost:<t>` is requested exactly when its port text parses. */
  lemma LocalhostAddress(t: string)
    ensures Requestable("http://localhost:" + t) <==> PortTextParses(t)
  {
    var url := "http://localhost:" + t;
    var a := url[|HttpPrefix|..];
    assert HttpPrefix <= url;
    assert !(HttpsPrefix <= url) by {
      assert url[4] == ':' != HttpsPrefix[4];
    }
    assert a == "localhost:" + t;
    var h := RunLength(a, IsHostChar);
    assert forall i :: 0 <= i < 9 ==> IsHostChar(a[i]);
    assert !IsHostChar(a[9]);
    assert h == 9;
    assert a[h + 1..] == t;
  }

  /** An address without a scheme is never requested: `localhost:4200`
      takes `localhost` for its scheme. */
  lemma SchemelessRejected()
    ensures !Requestable("localhost:4200")
  {
    var url := "localhost:4200";
    assert url[0] != HttpPrefix[0];
    assert url[0] != HttpsPrefix[0];
  }
}
