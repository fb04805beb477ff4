/** `domainsWithWWW` of https.go, which lists the domains a certificate is
    requested for: each configured domain and, for a domain that does not
    start with "www.", a second entry meant to be its "www." form. As written
    the second entry is the domain itself; `WithWww` is the evident intent. */
module Https {
  import opened Common

  const WwwPrefix: string := "www."

  /** The number of domains of `domains` that do not start with "www.". */
  function Bare(domains: seq<string>): nat
  {
    if domains == [] then 0
    else Bare(domains[..|domains| - 1]) + (if HasPrefix(domains[|domains| - 1], WwwPrefix) then 0 else 1)
  }

  /** The entry added after a domain that does not start with "www.": the
      domain itself as written, its "www." form when `fixed`. */
  function Companion(domain: string, fixed: bool): string
  {
    if fixed then WwwPrefix + domain else domain
  }

  /** The list the loop builds: each domain, followed by its companion when
      it does not start with "www.". */
  function Expand(domains: seq<string>, fixed: bool): seq<string>
  {
    if domains == [] then []
    else
      var d := domains[|domains| - 1];
      Expand(domains[..|domains| - 1], fixed) + [d] + (if HasPrefix(d, WwwPrefix) then [] else [Companion(d, fixed)])
  }

  /** `domainsWithWWW`, as written. */
  method DomainsWithWww(domains: seq<string>) returns (result: seq<string>)
    ensures result == Expand(domains, false)
  {
    result := [];
    for i := 0 to |domains|
      invariant result == Expand(domains[..i], false)
    {
      var domain := domains[i];
      assert domains[..i + 1][..i] == domains[..i];
      result := result + [domain];
      if !HasPrefix(domain, WwwPrefix) {
        result := result + [domain];
      }
    }
    assert domains[..|domains|] == domains;
  }

  /** Where domain `i` lands in the expanded list: after the `i` domains
      before it and the companions of those that are bare. */
  function Position(domains: seq<string>, i: nat): nat
    requires i <= |domains|
  {
    i + Bare(domains[..i])
  }

  lemma PrefixOfPrefix(domains: seq<string>, i: nat, n: nat)
    requires i <= n <= |domains|
    ensures domains[..n][..i] == domains[..i]
  {
  }

  /** The expanded list has one entry per domain and one more per bare
      domain; the empty list expands to nothing. */
  lemma {:induction false} ExpandLength(domains: seq<string>, fixed: bool)
    ensures |Expand(domains, fixed)| == |domains| + Bare(domains)
  {
    if domains != [] {
      ExpandLength(domains[..|domains| - 1], fixed);
    }
  }

  /** Domain `i` sits at `Position(domains, i)`, in input order,
      followed by its companion when it is bare. */
  lemma {:induction false} ExpandShape(domains: seq<string>, fixed: bool, i: nat)
    requires i < |domains|
    ensures var r, p := Expand(domains, fixed), Position(domains, i);
            && p < |r| && r[p] == domains[i]
            && (!HasPrefix(domains[i], WwwPrefix) ==> p + 1 < |r| && r[p + 1] == Companion(domains[i], fixed))
  {
    var n := |domains| - 1;
    var init := domains[..n];
    ExpandLength(domains, fixed);
    if i < n {
      ExpandShape(init, fixed, i);
      PrefixOfPrefix(domains, i, n);
    } else if n > 0 {
      ExpandShape(init, fixed, n - 1);
    } else {
      assert init == [];
    }
  }

  /** The next domain follows right after domain `i`, or after its
      companion: a domain that starts with "www." gets no second entry. */
  lemma PositionNext(domains: seq<string>, i: nat)
    requires i < |domains|
    ensures Position(domains, i + 1) == Position(domains, i) + (if HasPrefix(domains[i], WwwPrefix) then 1 else 2)
  {
    assert domains[..i + 1][..i] == domains[..i];
  }

  /** As written, a bare domain is listed twice and its "www." form not at
      all: the certificate never covers "www.example.com". */
  lemma AsWrittenRepeatsDomain()
    ensures Expand(["example.com"], false) == ["example.com", "example.com"]
    ensures "www.example.com" !in Expand(["example.com"], false)
  {
    assert "example.com"[0] == 'e';
    assert ["example.com"][..0] == [];
  }

  /** `domainsWithWWW` as evidently intended. */
  function WithWww(domains: seq<string>): seq<string>
  {
    Expand(domains, true)
  }

  /** The intended list holds every domain, in input order, and the "www."
      form of every domain that lacks it, right after the domain. */
  lemma WithWwwCoversWww(domains: seq<string>, i: nat)
    requires i < |domains|
    ensures var r, p := WithWww(domains), Position(domains, i);
            && p < |r| && r[p] == domains[i]
            && (!HasPrefix(domains[i], WwwPrefix) ==> p + 1 < |r| && r[p + 1] == "www." + domains[i])
  {
    ExpandShape(domains, true, i);
  }
}
