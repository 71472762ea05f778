/**
 * Expansion of the hostname placeholders in `self_hostname`: every
 * `${hostname}` and every `__HOSTNAME__` becomes the effective hostname,
 * and all other text is kept as written.
 */
module Placeholder {
  import opened Results

  const DollarPlaceholder: string := "${hostname}"
  const HostnameMarker: string := "__HOSTNAME__"

  /** A placeholder starts at the front of `s`. */
  predicate TokenAtFront(s: string) {
    DollarPlaceholder <= s || HostnameMarker <= s
  }

  /** No placeholder occurs anywhere in `s`. */
  predicate NoToken(s: string) {
    forall i :: 0 <= i < |s| ==> !TokenAtFront(s[i..])
  }

  /**
   * No placeholder can start inside `p`, whatever text follows it: no suffix
   * of `p` is the beginning of a placeholder or contains one at its front.
   */
  predicate Literal(p: string) {
    forall i :: 0 <= i < |p| ==> Unrelated(p[i..])
  }

  predicate Unrelated(u: string) {
    !(DollarPlaceholder <= u || u <= DollarPlaceholder) && !(HostnameMarker <= u || u <= HostnameMarker)
  }

  /**
   * Replaces each placeholder, scanning once from left to right. The result
   * is made only of characters of `s` and of the hostname.
   */
  function Expand(s: string, host: string): (r: string)
    ensures forall c :: c in r ==> c in s || c in host
    decreases |s|
  {
    if |s| == 0 then []
    else if DollarPlaceholder <= s then host + Expand(s[|DollarPlaceholder|..], host)
    else if HostnameMarker <= s then host + Expand(s[|HostnameMarker|..], host)
    else [s[0]] + Expand(s[1..], host)
  }

  /** A string without placeholders is used verbatim. */
  lemma {:induction false} ExpandVerbatim(s: string, host: string)
    requires NoToken(s)
    ensures Expand(s, host) == s
  {
    if |s| > 0 {
      assert s[0..] == s;
      assert NoToken(s[1..]) by {
        forall i | 0 <= i < |s[1..]| ensures !TokenAtFront(s[1..][i..]) {
          assert s[1..][i..] == s[i + 1..];
        }
      }
      ExpandVerbatim(s[1..], host);
    }
  }

  /** Two sequences that differ in their first element are not prefixes of each other. */
  lemma FirstDiffers<T>(a: seq<T>, b: seq<T>)
    requires |a| > 0 && |b| > 0 && a[0] != b[0]
    ensures !(a <= b) && !(b <= a)
  {
  }

  /** A prefix of `p + q` is a prefix of `p` or has `p` as a prefix. */
  lemma PrefixOfConcat<T>(t: seq<T>, p: seq<T>, q: seq<T>)
    requires t <= p + q
    ensures t <= p || p <= t
  {
  }

  /** The hostname used for expansion: the configured one wins over the system's. */
  function EffectiveHostname(configured: Option<string>, system: string): (h: string)
    ensures configured.Some? ==> h == configured.value
    ensures configured.None? ==> h == system
  {
    configured.GetOr(system)
  }

  /** `self_hostname` after placeholder expansion. */
  function ResolveSelfHostname(selfHostname: string, configured: Option<string>, system: string): (r: string)
    ensures NoToken(selfHostname) ==> r == selfHostname
    ensures TokenAtFront(selfHostname) ==> EffectiveHostname(configured, system) <= r
  {
    assert NoToken(selfHostname) ==> Expand(selfHostname, EffectiveHostname(configured, system)) == selfHostname by {
      if NoToken(selfHostname) { ExpandVerbatim(selfHostname, EffectiveHostname(configured, system)); }
    }
    Expand(selfHostname, EffectiveHostname(configured, system))
  }

  /** A placeholder at the front expands to the hostname, and the rest is expanded on its own. */
  lemma ExpandToken(t: string, q: string, host: string)
    requires t == DollarPlaceholder || t == HostnameMarker
    ensures Expand(t + q, host) == host + Expand(q, host)
  {
    assert (t + q)[|t|..] == q;
    assert t <= t + q;
    if t == HostnameMarker {
      FirstDiffers(DollarPlaceholder, t + q);
    }
  }

  /** Text inside which no placeholder starts passes through unchanged. */
  lemma {:induction false} ExpandLiteral(p: string, q: string, host: string)
    requires forall i :: 0 <= i < |p| ==> !TokenAtFront((p + q)[i..])
    ensures Expand(p + q, host) == p + Expand(q, host)
  {
    if |p| > 0 {
      var s := p + q;
      assert !TokenAtFront(s[0..]);
      assert s[0..] == s;
      assert s[1..] == p[1..] + q;
      forall i | 0 <= i < |p[1..]| ensures !TokenAtFront((p[1..] + q)[i..]) {
        assert (p[1..] + q)[i..] == s[i + 1..];
      }
      ExpandLiteral(p[1..], q, host);
      assert s[0] == p[0];
      assert Expand(s, host) == [p[0]] + Expand(p[1..] + q, host);
      assert [p[0]] + (p[1..] + Expand(q, host)) == ([p[0]] + p[1..]) + Expand(q, host);
      assert [p[0]] + p[1..] == p;
    } else {
      assert p + q == q;
    }
  }

  /** No placeholder starts inside `Literal` text, whatever follows it. */
  lemma LiteralStartsNoToken(p: string, q: string)
    requires Literal(p)
    ensures forall i :: 0 <= i < |p| ==> !TokenAtFront((p + q)[i..])
  {
    forall i | 0 <= i < |p| ensures !TokenAtFront((p + q)[i..]) {
      assert Unrelated(p[i..]);
      assert (p + q)[i..] == p[i..] + q;
      if DollarPlaceholder <= (p + q)[i..] { PrefixOfConcat(DollarPlaceholder, p[i..], q); }
      if HostnameMarker <= (p + q)[i..] { PrefixOfConcat(HostnameMarker, p[i..], q); }
    }
  }

  /** `Literal` text passes through unchanged in front of any text. */
  lemma ExpandLiteralPrefix(p: string, q: string, host: string)
    requires Literal(p)
    ensures Expand(p + q, host) == p + Expand(q, host)
  {
    LiteralStartsNoToken(p, q);
    ExpandLiteral(p, q, host);
  }

  /** Text without `$` and `_` can never begin a placeholder. */
  lemma PlainIsLiteral(p: string)
    requires forall i :: 0 <= i < |p| ==> p[i] != '$' && p[i] != '_'
    ensures Literal(p)
  {
    forall i | 0 <= i < |p| ensures Unrelated(p[i..]) {
      var u := p[i..];
      assert u[0] == p[i];
      FirstDiffers(DollarPlaceholder, u);
      FirstDiffers(HostnameMarker, u);
    }
  }

  /**
   * Text around one placeholder is kept and the placeholder becomes the
   * hostname, provided no other placeholder starts before or after it.
   */
  lemma ExpandSurrounded(p: string, t: string, q: string, host: string)
    requires forall i :: 0 <= i < |p| ==> !TokenAtFront((p + t + q)[i..])
    requires NoToken(q)
    requires t == DollarPlaceholder || t == HostnameMarker
    ensures Expand(p + t + q, host) == p + host + q
  {
    assert p + t + q == p + (t + q);
    ExpandLiteral(p, t + q, host);
    ExpandToken(t, q, host);
    ExpandVerbatim(q, host);
  }

  /**
   * A prefix may end in part of a marker: in `my_${hostname}` the `_` does
   * not start `__HOSTNAME__`, so `my_` is kept.
   */
  lemma UnderscorePrefix(host: string)
    ensures Expand("my_${hostname}", host) == "my_" + host
  {
    var p, s := "my_", "my_${hostname}";
    assert s == p + DollarPlaceholder + [];
    forall i | 0 <= i < |p| ensures !TokenAtFront(s[i..]) {
      FirstDiffers(DollarPlaceholder, s[i..]);
      if i == 2 {
        assert s[i..][1] != HostnameMarker[1];
      } else {
        FirstDiffers(HostnameMarker, s[i..]);
      }
    }
    ExpandSurrounded(p, DollarPlaceholder, [], host);
    assert p + host + [] == p + host;
  }
}
