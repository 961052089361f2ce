/** Resolution of a client's address at registration (server.js, `register_user`). */
module Ip {
  import opened Js

  /** The WhiteSpace and LineTerminator code points that ECMAScript's `String.prototype.trim` removes. */
  predicate IsTrimmable(c: char) {
    || c == '\t' || c == '\n' || c == '\U{000B}' || c == '\U{000C}' || c == '\r' || c == ' '
    || c == '\U{00A0}' || c == '\U{1680}' || ('\U{2000}' <= c <= '\U{200A}')
    || c == '\U{2028}' || c == '\U{2029}' || c == '\U{202F}' || c == '\U{205F}'
    || c == '\U{3000}' || c == '\U{FEFF}'
  }

  /** `s.split(",")[0]`: everything before the first comma, or all of `s` if it has none. */
  function FirstField(s: string): (r: string)
    ensures r <= s
    ensures ',' !in r
    ensures |r| < |s| ==> s[|r|] == ','
  {
    if s == [] || s[0] == ',' then [] else [s[0]] + FirstField(s[1..])
  }

  /** The number of trimmable characters at the start of `s`. */
  function LeadingSpace(s: string): (n: nat)
    ensures n <= |s|
    ensures forall k :: 0 <= k < n ==> IsTrimmable(s[k])
    ensures n < |s| ==> !IsTrimmable(s[n])
  {
    if s == [] || !IsTrimmable(s[0]) then 0 else 1 + LeadingSpace(s[1..])
  }

  /** The number of trimmable characters at the end of `s`. */
  function TrailingSpace(s: string): (n: nat)
    ensures n <= |s|
    ensures forall k :: |s| - n <= k < |s| ==> IsTrimmable(s[k])
    ensures n < |s| ==> !IsTrimmable(s[|s| - 1 - n])
  {
    if s == [] || !IsTrimmable(s[|s| - 1]) then 0 else 1 + TrailingSpace(s[..|s| - 1])
  }

  /** No trimmable character at either end (the empty string included). */
  predicate Unpadded(s: string) {
    s == [] || (!IsTrimmable(s[0]) && !IsTrimmable(s[|s| - 1]))
  }

  /** `s.trim()`: `s` without its leading and trailing white space. */
  function Trim(s: string): (r: string)
    ensures |r| <= |s|
    ensures Unpadded(r)
  {
    var t := s[LeadingSpace(s)..];
    t[..|t| - TrailingSpace(t)]
  }

  predicate AllTrimmable(s: string) {
    forall k :: 0 <= k < |s| ==> IsTrimmable(s[k])
  }

  /** The leading white space of `lead + rest` is `lead` when `rest` does not start with white space. */
  lemma LeadingSpaceOf(lead: string, rest: string)
    requires AllTrimmable(lead) && (rest == [] || !IsTrimmable(rest[0]))
    ensures LeadingSpace(lead + rest) == |lead|
  {
    var s := lead + rest;
    assert forall k :: 0 <= k < |lead| ==> s[k] == lead[k];
    if rest != [] {
      assert s[|lead|] == rest[0];
    }
  }

  /** The trailing white space of `rest + trail` is `trail` when `rest` does not end with white space. */
  lemma TrailingSpaceOf(rest: string, trail: string)
    requires AllTrimmable(trail) && (rest == [] || !IsTrimmable(rest[|rest| - 1]))
    ensures TrailingSpace(rest + trail) == |trail|
  {
    var s := rest + trail;
    assert forall k :: |rest| <= k < |s| ==> s[k] == trail[k - |rest|];
    if rest != [] {
      assert s[|rest| - 1] == rest[|rest| - 1];
    }
  }

  /** Trim removes exactly the white-space padding around an unpadded core. */
  lemma TrimUnpads(lead: string, core: string, trail: string)
    requires AllTrimmable(lead) && AllTrimmable(trail) && Unpadded(core)
    ensures Trim(lead + core + trail) == core
  {
    if core == [] {
      var s := lead + trail;
      assert AllTrimmable(s) by {
        assert forall k :: 0 <= k < |lead| ==> s[k] == lead[k];
        assert forall k :: |lead| <= k < |s| ==> s[k] == trail[k - |lead|];
      }
      LeadingSpaceOf(s, []);
      assert s + [] == s && lead + core + trail == s;
    } else {
      assert lead + core + trail == lead + (core + trail);
      LeadingSpaceOf(lead, core + trail);
      assert (lead + (core + trail))[|lead|..] == core + trail;
      TrailingSpaceOf(core, trail);
      assert (core + trail)[..|core|] == core;
    }
  }

  /** Trimming twice is the same as trimming once. */
  lemma TrimIdempotent(s: string)
    ensures Trim(Trim(s)) == Trim(s)
  {
    TrimUnpads([], Trim(s), []);
    assert [] + Trim(s) + [] == Trim(s);
  }

  /** split(",")[0] of a field followed by nothing or by a comma is that field. */
  lemma {:induction false} FirstFieldOf(field: string, rest: string)
    requires ',' !in field
    requires rest == [] || rest[0] == ','
    ensures FirstField(field + rest) == field
  {
    if field != [] {
      assert (field + rest)[1..] == field[1..] + rest;
      FirstFieldOf(field[1..], rest);
    }
  }

  /**
   * The address recorded for a registering client: the first comma-separated entry of a
   * non-empty X-Forwarded-For header, trimmed, and otherwise the socket's remote address.
   */
  function ResolveIp(forwardedFor: Option<string>, remoteAddress: string): (ip: string)
    ensures !TruthyStr(forwardedFor) ==> ip == remoteAddress
    ensures TruthyStr(forwardedFor) ==> ',' !in ip && Unpadded(ip) && |ip| <= |forwardedFor.value|
  {
    if TruthyStr(forwardedFor) then Trim(FirstField(forwardedFor.value)) else remoteAddress
  }

  /**
   * With a header `lead + addr + trail` followed by further proxies (`rest` starting at a comma),
   * the resolved address is exactly `addr`.
   */
  lemma ResolveIpForwarded(lead: string, addr: string, trail: string, rest: string, remoteAddress: string)
    requires AllTrimmable(lead) && AllTrimmable(trail) && Unpadded(addr)
    requires ',' !in lead + addr + trail
    requires rest == [] || rest[0] == ','
    requires lead + addr + trail + rest != []
    ensures ResolveIp(Some(lead + addr + trail + rest), remoteAddress) == addr
  {
    FirstFieldOf(lead + addr + trail, rest);
    TrimUnpads(lead, addr, trail);
  }
}
