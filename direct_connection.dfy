/**
 * The address suggestions of the direct-connection helper: which addresses
 * to probe for an inverter, given the computer's own IPv4 address, and the
 * link-local (APIPA, 169.254.x.x) test that decides between the two
 * strategies.
 */
module DirectConnection {
  import opened Wrappers
  import opened Text

  /** The prefix of link-local (APIPA) addresses. */
  const ApipaPrefix: string := "169.254."

  /** The static addresses inverters commonly use, probed first on a direct link. */
  const FixedCandidates: seq<string> :=
    ["169.254.1.1", "169.254.1.100", "169.254.100.1",
     "192.168.1.1", "192.168.1.100", "192.168.0.1", "10.0.0.1"]

  /** The host numbers tried in the computer's own subnet on a direct link. */
  const SubnetSuffixes: seq<nat> := [1, 2, 3, 4, 5, 10, 100, 200]

  /** The address is link-local: it starts with `169.254.`. */
  predicate IsApipa(ip: string) {
    ApipaPrefix <= ip
  }

  /** What the network probe reports: the resolved address and whether it is link-local. */
  datatype NetworkInfo = NetworkInfo(localIp: Option<string>, direct: bool)

  /**
   * The result of `get_network_info` once the host name has been resolved
   * (`None`: resolution raised).
   */
  function NetworkInfoOf(resolved: Option<string>): (info: NetworkInfo)
    ensures info.localIp == resolved
    ensures info.direct <==> resolved.Some? && IsApipa(resolved.value)
  {
    match resolved
    case None => NetworkInfo(None, false)
    case Some(ip) => NetworkInfo(Some(ip), IsApipa(ip))
  }

  /** The first three dot-separated fields of `ip`, or `None` when it has fewer (Python's `IndexError`). */
  function SubnetBase(ip: string): (base: Option<string>)
    ensures base.Some? <==> |Split(ip, '.')| >= 3
    ensures base.Some? ==>
              var parts := Split(ip, '.');
              base.value == parts[0] + "." + parts[1] + "." + parts[2]
  {
    var parts := Split(ip, '.');
    if |parts| < 3 then None else Some(parts[0] + "." + parts[1] + "." + parts[2])
  }

  /** The host `n` of the subnet `base`. */
  function Candidate(base: string, n: nat): string {
    base + "." + NatToString(n)
  }

  /** Distinct host numbers give distinct addresses in one subnet. */
  lemma CandidateInjective(base: string, a: nat, b: nat)
    ensures Candidate(base, a) == Candidate(base, b) ==> a == b
  {
    assert Candidate(base, a) == (base + ".") + NatToString(a);
    assert Candidate(base, b) == (base + ".") + NatToString(b);
    PrefixedInjective(base + ".", NatToString(a), NatToString(b));
    NatToStringInjective(a, b);
  }

  /** The addresses of the hosts `xs` in `base`, in order. */
  function Candidates(base: string, xs: seq<nat>): (cs: seq<string>)
    ensures |cs| == |xs|
    ensures forall i :: 0 <= i < |xs| ==> cs[i] == Candidate(base, xs[i])
  {
    seq(|xs|, i requires 0 <= i < |xs| => Candidate(base, xs[i]))
  }

  /** The addresses of the hosts `xs` in `base`, in order, except the one equal to `ip`. */
  function Kept(base: string, ip: string, xs: seq<nat>): seq<string>
    decreases |xs|
  {
    if xs == [] then []
    else
      var n := |xs| - 1;
      var c := Candidate(base, xs[n]);
      if c != ip then Kept(base, ip, xs[..n]) + [c] else Kept(base, ip, xs[..n])
  }

  /** The consecutive host numbers `lo`, ..., `hi - 1`: Python's `range(lo, hi)`. */
  function Range(lo: nat, hi: nat): (r: seq<nat>)
    ensures |r| == if lo <= hi then hi - lo else 0
    ensures forall i :: 0 <= i < |r| ==> r[i] == lo + i
  {
    if hi <= lo then [] else seq(hi - lo, i requires 0 <= i < hi - lo => lo + i)
  }

  predicate Distinct(xs: seq<nat>) {
    forall i, j :: 0 <= i < j < |xs| ==> xs[i] != xs[j]
  }

  /** An address is kept exactly when it is the address of one of the hosts and is not `ip`. */
  lemma {:induction false} KeptMembers(base: string, ip: string, xs: seq<nat>, c: string)
    ensures c in Kept(base, ip, xs) <==> c in Candidates(base, xs) && c != ip
    decreases |xs|
  {
    if xs != [] {
      var n := |xs| - 1;
      KeptMembers(base, ip, xs[..n], c);
      assert Candidates(base, xs) == Candidates(base, xs[..n]) + [Candidate(base, xs[n])];
    }
  }

  /** Filtering distributes over concatenation of host lists. */
  lemma {:induction false} KeptAppend(base: string, ip: string, xs: seq<nat>, ys: seq<nat>)
    ensures Kept(base, ip, xs + ys) == Kept(base, ip, xs) + Kept(base, ip, ys)
    decreases |ys|
  {
    if ys == [] {
      assert xs + ys == xs;
    } else {
      var n := |ys| - 1;
      assert (xs + ys)[..|xs| + n] == xs + ys[..n];
      KeptAppend(base, ip, xs, ys[..n]);
    }
  }

  /** When no host's address is `ip`, nothing is dropped. */
  lemma {:induction false} KeptAll(base: string, ip: string, xs: seq<nat>)
    requires forall i :: 0 <= i < |xs| ==> Candidate(base, xs[i]) != ip
    ensures Kept(base, ip, xs) == Candidates(base, xs)
    decreases |xs|
  {
    if xs != [] {
      var n := |xs| - 1;
      KeptAll(base, ip, xs[..n]);
      assert Candidates(base, xs) == Candidates(base, xs[..n]) + [Candidate(base, xs[n])];
    }
  }

  /**
   * Over distinct hosts, exactly the one whose address is `ip` is dropped:
   * the result is the host addresses before it followed by those after it.
   */
  lemma DropsOnlyMatch(base: string, ip: string, xs: seq<nat>, k: int)
    requires Distinct(xs) && 0 <= k < |xs| && Candidate(base, xs[k]) == ip
    ensures Kept(base, ip, xs) == Candidates(base, xs[..k]) + Candidates(base, xs[k + 1..])
  {
    forall i | 0 <= i < |xs| && i != k
      ensures Candidate(base, xs[i]) != ip
    {
      CandidateInjective(base, xs[i], xs[k]);
    }
    assert xs == xs[..k] + [xs[k]] + xs[k + 1..];
    KeptAppend(base, ip, xs[..k] + [xs[k]], xs[k + 1..]);
    KeptAppend(base, ip, xs[..k], [xs[k]]);
    assert [xs[k]][..0] == [];
    KeptAll(base, ip, xs[..k]);
    KeptAll(base, ip, xs[k + 1..]);
  }

  /** Over distinct hosts at most one address is dropped, and only when `ip` is among them. */
  lemma KeptLength(base: string, ip: string, xs: seq<nat>)
    requires Distinct(xs)
    ensures |Kept(base, ip, xs)| == if ip in Candidates(base, xs) then |xs| - 1 else |xs|
  {
    if ip in Candidates(base, xs) {
      var k :| 0 <= k < |xs| && Candidates(base, xs)[k] == ip;
      DropsOnlyMatch(base, ip, xs, k);
    } else {
      KeptAll(base, ip, xs);
    }
  }

  lemma RangeDistinct(lo: nat, hi: nat)
    ensures Distinct(Range(lo, hi))
  {
  }

  /** A link-local address has at least three fields, and its subnet base is link-local too. */
  lemma ApipaBase(ip: string)
    requires IsApipa(ip)
    ensures SubnetBase(ip).Some? && ApipaPrefix <= SubnetBase(ip).value
  {
    var rest := ip[|ApipaPrefix|..];
    assert ip == "169" + ['.'] + ("254" + ['.'] + rest);
    SplitLeadingField("169", '.', "254" + ['.'] + rest);
    SplitLeadingField("254", '.', rest);
    var parts := Split(ip, '.');
    assert parts == ["169", "254"] + Split(rest, '.');
    var base := parts[0] + "." + parts[1] + "." + parts[2];
    assert base == ApipaPrefix + parts[2];
  }

  /** Every address in a link-local subnet starts with `169.254.`. */
  lemma ApipaCandidates(base: string, ip: string, xs: seq<nat>)
    requires ApipaPrefix <= base
    ensures forall c :: c in Kept(base, ip, xs) ==> IsApipa(c)
  {
    forall c | c in Kept(base, ip, xs)
      ensures IsApipa(c)
    {
      KeptMembers(base, ip, xs, c);
      var i :| 0 <= i < |xs| && Candidates(base, xs)[i] == c;
      assert c == base + ("." + NatToString(xs[i]));
    }
  }

  /**
   * `suggest_inverter_ips`: nothing for a missing or empty address; for a
   * link-local address the fixed list followed by the subnet hosts 1, 2, 3,
   * 4, 5, 10, 100 and 200 other than the computer itself; for any other
   * address hosts 1 to 254 of its subnet other than the computer itself,
   * and the `IndexError` when the address has fewer than three fields.
   */
  method SuggestInverterIps(computerIp: Option<string>) returns (r: Result<seq<string>, string>)
    ensures computerIp.None? || computerIp.value == [] ==> r == Success([])
    ensures computerIp.Some? && computerIp.value != [] && IsApipa(computerIp.value) ==>
              && SubnetBase(computerIp.value).Some?
              && r == Success(FixedCandidates + Kept(SubnetBase(computerIp.value).value, computerIp.value, SubnetSuffixes))
    ensures computerIp.Some? && computerIp.value != [] && !IsApipa(computerIp.value) ==>
              && (r.Failure? <==> SubnetBase(computerIp.value).None?)
              && (r.Success? ==> r.value == Kept(SubnetBase(computerIp.value).value, computerIp.value, Range(1, 255)))
  {
    if computerIp.None? || computerIp.value == [] {
      return Success([]);
    }
    var ip := computerIp.value;
    var parts := Split(ip, '.');
    if IsApipa(ip) {
      ApipaBase(ip);
      var base := parts[0] + "." + parts[1] + "." + parts[2];
      var commonIps := FixedCandidates;
      for i := 0 to |SubnetSuffixes|
        invariant commonIps == FixedCandidates + Kept(base, ip, SubnetSuffixes[..i])
      {
        assert SubnetSuffixes[..i + 1][..i] == SubnetSuffixes[..i];
        var candidate := Candidate(base, SubnetSuffixes[i]);
        if candidate != ip {
          commonIps := commonIps + [candidate];
        }
      }
      assert SubnetSuffixes[..|SubnetSuffixes|] == SubnetSuffixes;
      return Success(commonIps);
    }
    if |parts| < 3 {
      return Failure("IndexError: list index out of range");
    }
    var base := parts[0] + "." + parts[1] + "." + parts[2];
    r := Success(Kept(base, ip, Range(1, 255)));
  }

  /** For an ordinary address: hosts 1 to 254 in increasing order, the computer's own address dropped. */
  lemma RegularSuggestions(ip: string)
    requires SubnetBase(ip).Some?
    ensures var base := SubnetBase(ip).value;
            var result := Kept(base, ip, Range(1, 255));
            && ip !in result
            && (|result| == 253 || |result| == 254)
            && (forall n: nat :: 1 <= n < 255 && Candidate(base, n) != ip ==> Candidate(base, n) in result)
            && (forall n: nat :: 1 <= n < 255 && Candidate(base, n) == ip ==>
                  result == Candidates(base, Range(1, n)) + Candidates(base, Range(n + 1, 255)))
            && (ip !in Candidates(base, Range(1, 255)) ==> result == Candidates(base, Range(1, 255)))
  {
    var base := SubnetBase(ip).value;
    var xs := Range(1, 255);
    KeptMembers(base, ip, xs, ip);
    RangeDistinct(1, 255);
    KeptLength(base, ip, xs);
    forall n: nat | 1 <= n < 255 && Candidate(base, n) != ip
      ensures Candidate(base, n) in Kept(base, ip, xs)
    {
      KeptMembers(base, ip, xs, Candidate(base, n));
      assert Candidates(base, xs)[n - 1] == Candidate(base, n);
    }
    forall n: nat | 1 <= n < 255 && Candidate(base, n) == ip
      ensures Kept(base, ip, xs) == Candidates(base, Range(1, n)) + Candidates(base, Range(n + 1, 255))
    {
      DropsOnlyMatch(base, ip, xs, n - 1);
      assert xs[..n - 1] == Range(1, n);
      assert xs[n..] == Range(n + 1, 255);
    }
    if ip !in Candidates(base, xs) {
      KeptAll(base, ip, xs);
    }
  }

  /**
   * For a link-local address: the fixed list comes first, unfiltered, so the
   * computer's own address appears exactly when it is one of the fixed
   * addresses; the subnet hosts follow, all link-local, 14 or 15 in all.
   */
  lemma ApipaSuggestions(ip: string)
    requires IsApipa(ip)
    ensures SubnetBase(ip).Some?
    ensures var result := FixedCandidates + Kept(SubnetBase(ip).value, ip, SubnetSuffixes);
            && result[..|FixedCandidates|] == FixedCandidates
            && (ip in result <==> ip in FixedCandidates)
            && (forall c :: c in result[|FixedCandidates|..] ==> IsApipa(c))
            && (|result| == 14 || |result| == 15)
  {
    ApipaBase(ip);
    var base := SubnetBase(ip).value;
    var tail := Kept(base, ip, SubnetSuffixes);
    var result := FixedCandidates + tail;
    KeptMembers(base, ip, SubnetSuffixes, ip);
    ApipaCandidates(base, ip, SubnetSuffixes);
    assert result[|FixedCandidates|..] == tail;
    KeptLength(base, ip, SubnetSuffixes);
  }
}
