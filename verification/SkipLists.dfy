/**
 The list of skipped phases (pkg/cmd/init.go): skipPhaseIfExists, manageSkippedAddons, and
 what the data initializer of the init command makes of the list with them.
 */
module SkipLists {
  import opened PhaseTree

  /** The full names of all phases of a tree, in the order in which they are looked at. */
  function FullNames(ps: seq<Phase>, prefix: string): seq<string>
    decreases ps
  {
    if ps == [] then []
    else
      var full := prefix + ps[0].name;
      [full] + (if ps[0].nested then FullNames(ps[0].phases, full + "/") else []) + FullNames(ps[1..], prefix)
  }

  lemma {:induction false} FullNamesAppend(ps: seq<Phase>, qs: seq<Phase>, prefix: string)
    ensures FullNames(ps + qs, prefix) == FullNames(ps, prefix) + FullNames(qs, prefix)
  {
    if ps == [] {
      assert ps + qs == qs;
    } else {
      assert (ps + qs)[1..] == ps[1..] + qs;
      FullNamesAppend(ps[1..], qs, prefix);
    }
  }

  lemma FullNamesNext(ps: seq<Phase>, i: nat, prefix: string)
    requires i < |ps|
    ensures var full := prefix + ps[i].name;
            FullNames(ps[..i + 1], prefix) ==
            FullNames(ps[..i], prefix) + [full] + if ps[i].nested then FullNames(ps[i].phases, full + "/") else []
  {
    assert ps[..i + 1] == ps[..i] + [ps[i]];
    FullNamesAppend(ps[..i], [ps[i]], prefix);
  }

  /** A full name is the slash-joined path from the root to a phase, and every phase has one. */
  predicate IsPath(ps: seq<Phase>, path: seq<string>)
    decreases ps, 0
  {
    path != [] && exists i :: 0 <= i < |ps| && Begins(ps[i], path)
  }

  /** The path leads to `p` or to a phase below it. */
  predicate Begins(p: Phase, path: seq<string>)
    decreases p, 1
  {
    path != [] && p.name == path[0] && (|path| == 1 || (p.nested && IsPath(p.phases, path[1..])))
  }

  lemma {:induction false} JoinHead(path: seq<string>)
    requires |path| > 1
    ensures Join(path) == path[0] + "/" + Join(path[1..])
    decreases |path|
  {
    var n := |path| - 1;
    if n > 1 {
      JoinHead(path[..n]);
      assert path[..n][1..] == path[1..][..n - 1];
    }
  }

  lemma {:induction false} PathHasName(ps: seq<Phase>, path: seq<string>, prefix: string)
    requires IsPath(ps, path)
    ensures prefix + Join(path) in FullNames(ps, prefix)
    decreases ps
  {
    var i :| 0 <= i < |ps| && Begins(ps[i], path);
    var full := prefix + ps[i].name;
    if |path| > 1 {
      PathHasName(ps[i].phases, path[1..], full + "/");
      JoinHead(path);
      assert full + "/" + Join(path[1..]) == prefix + Join(path);
    }
    FullNamesNext(ps, i, prefix);
    FullNamesAppend(ps[..i + 1], ps[i + 1..], prefix);
    assert ps == ps[..i + 1] + ps[i + 1..];
  }

  lemma {:induction false} NameHasPath(ps: seq<Phase>, name: string, prefix: string) returns (path: seq<string>)
    requires name in FullNames(ps, prefix)
    ensures IsPath(ps, path) && name == prefix + Join(path)
    decreases ps
  {
    var p := ps[0];
    var full := prefix + p.name;
    if name == full {
      path := [p.name];
      assert Begins(ps[0], path);
    } else if p.nested && name in FullNames(p.phases, full + "/") {
      var rest := NameHasPath(p.phases, name, full + "/");
      path := [p.name] + rest;
      PathBelow(p, rest, prefix);
      assert Begins(ps[0], path);
    } else {
      path := NameHasPath(ps[1..], name, prefix);
    }
  }

  lemma PathBelow(p: Phase, rest: seq<string>, prefix: string)
    requires p.nested && IsPath(p.phases, rest)
    ensures Begins(p, [p.name] + rest)
    ensures prefix + p.name + "/" + Join(rest) == prefix + Join([p.name] + rest)
  {
    var path := [p.name] + rest;
    assert path[1..] == rest;
    JoinHead(path);
  }

  class SkipList {
    var names: seq<string>

    constructor (names: seq<string>)
      ensures this.names == names
    {
      this.names := names;
    }

    /** The name is added, once, exactly if some phase of the tree has it as its full name. */
    method SkipPhaseIfExists(ps: seq<Phase>, name: string, prefix: string) returns (found: bool)
      modifies this
      ensures found <==> name in FullNames(ps, prefix)
      ensures names == if found then old(names) + [name] else old(names)
      decreases ps
    {
      for i := 0 to |ps|
        invariant name !in FullNames(ps[..i], prefix) && names == old(names)
      {
        var full := prefix + ps[i].name;
        FullNamesNext(ps, i, prefix);
        FullNamesAppend(ps[..i + 1], ps[i + 1..], prefix);
        assert ps == ps[..i + 1] + ps[i + 1..];
        if full == name {
          names := names + [full];
          return true;
        }
        if ps[i].nested && |ps[i].phases| > 0 {
          var below := SkipPhaseIfExists(ps[i].phases, name, full + "/");
          if below {
            return true;
          }
        }
      }
      assert ps[..|ps|] == ps;
      return false;
    }
  }

  // ----- addons ----------------------------------------------------------------------------------------

  const ADDON_PHASE := "addon"
  const CORE_DNS_PHASE := "addon/coredns"
  const KUBE_PROXY_PHASE := "addon/kube-proxy"

  predicate Skipped(skips: seq<string>, phase: string) {
    ADDON_PHASE in skips || phase in skips
  }

  class ClusterConfiguration {
    var dnsDisabled: bool
    var proxyDisabled: bool

    constructor (dns: bool, proxy: bool)
      ensures dnsDisabled == dns && proxyDisabled == proxy
    {
      dnsDisabled, proxyDisabled := dns, proxy;
    }

    /** Afterwards an addon is disabled exactly if it is skipped, which it is exactly if it was either
        before; the list only grows at its end, by the addons that were disabled but not skipped. */
    method ManageSkippedAddons(skips: seq<string>) returns (r: seq<string>)
      modifies this
      ensures dnsDisabled == Skipped(r, CORE_DNS_PHASE) == (old(dnsDisabled) || Skipped(skips, CORE_DNS_PHASE))
      ensures proxyDisabled == Skipped(r, KUBE_PROXY_PHASE) == (old(proxyDisabled) || Skipped(skips, KUBE_PROXY_PHASE))
      ensures r == skips + (if old(dnsDisabled) && !Skipped(skips, CORE_DNS_PHASE) then [CORE_DNS_PHASE] else [])
                   + (if old(proxyDisabled) && !Skipped(skips, KUBE_PROXY_PHASE) then [KUBE_PROXY_PHASE] else [])
    {
      var skipDNS, skipProxy := false, false;
      r := skips;
      if ADDON_PHASE in skips {
        skipDNS, skipProxy := true, true;
        dnsDisabled, proxyDisabled := true, true;
      }
      if CORE_DNS_PHASE in skips {
        skipDNS := true;
        dnsDisabled := true;
      }
      if KUBE_PROXY_PHASE in skips {
        skipProxy := true;
        proxyDisabled := true;
      }
      if dnsDisabled && !skipDNS {
        r := r + [CORE_DNS_PHASE];
      }
      if proxyDisabled && !skipProxy {
        r := r + [KUBE_PROXY_PHASE];
      }
    }

    /** A second call changes nothing, neither the list nor the flags. */
    method ManageTwice(skips: seq<string>) returns (once: seq<string>, twice: seq<string>)
      modifies this
      ensures once == twice
      ensures dnsDisabled == Skipped(once, CORE_DNS_PHASE) && proxyDisabled == Skipped(once, KUBE_PROXY_PHASE)
    {
      once := ManageSkippedAddons(skips);
      twice := ManageSkippedAddons(once);
    }
  }

  // ----- the data initializer ------------------------------------------------------------------------

  const ETCD := "etcd"
  const KINE := "kine"

  function If(b: bool, name: string): seq<string> {
    if b then [name] else []
  }

  lemma Backends(useEtcd: bool)
    ensures var unused, used := if useEtcd then KINE else ETCD, if useEtcd then ETCD else KINE;
            && used != unused && used != CORE_DNS_PHASE && used != KUBE_PROXY_PHASE
            && unused != CORE_DNS_PHASE && unused != KUBE_PROXY_PHASE
  {
  }

  lemma Members(
    given: seq<string>, a: bool, unused: string, b: bool, dns: string, c: bool, d: bool, proxy: string, r: seq<string>)
    requires r == given + If(a, unused) + If(b, dns) + If(c, dns) + If(d, proxy)
    ensures given <= r
    ensures forall x :: x in r <==> x in given || (a && x == unused) || ((b || c) && x == dns) || (d && x == proxy)
  {
  }

  method SkipTwo(list: SkipList, ps: seq<Phase>, unused: string) returns (backend: bool, dns: bool)
    modifies list
    ensures list.names == old(list.names) + If(backend, unused) + If(dns, CORE_DNS_PHASE)
    ensures (backend <==> unused in FullNames(ps, "")) && (dns <==> CORE_DNS_PHASE in FullNames(ps, ""))
  {
    backend := list.SkipPhaseIfExists(ps, unused, "");
    dns := list.SkipPhaseIfExists(ps, CORE_DNS_PHASE, "");
  }

  /** The names given stay in front. The backend that is not used is skipped if the workflow has it,
      the one that is used only if it was asked for; CoreDNS is disabled if it is a phase at all. */
  method InitSkips(list: SkipList, fromConfig: seq<string>, cfg: ClusterConfiguration, ps: seq<Phase>, useEtcd: bool)
    modifies list, cfg
    ensures var given := if old(list.names) == [] then fromConfig else old(list.names);
            var names := FullNames(ps, "");
            var unused, used := if useEtcd then KINE else ETCD, if useEtcd then ETCD else KINE;
            && given <= list.names
            && (unused in list.names <==> unused in given || unused in names)
            && (used in list.names <==> used in given)
            && (CORE_DNS_PHASE in names ==> cfg.dnsDisabled)
            && cfg.dnsDisabled == Skipped(list.names, CORE_DNS_PHASE)
            && cfg.proxyDisabled == Skipped(list.names, KUBE_PROXY_PHASE)
  {
    if |list.names| == 0 {
      list.names := fromConfig;
    }
    ghost var given := list.names;
    var unused := if useEtcd then KINE else ETCD;
    var backend, dns := SkipTwo(list, ps, unused);
    ghost var c := cfg.dnsDisabled && !Skipped(list.names, CORE_DNS_PHASE);
    ghost var d := cfg.proxyDisabled && !Skipped(list.names, KUBE_PROXY_PHASE);
    var managed := cfg.ManageSkippedAddons(list.names);
    list.names := managed;
    Backends(useEtcd);
    Members(given, backend, unused, dns, CORE_DNS_PHASE, c, d, KUBE_PROXY_PHASE, list.names);
  }
}
