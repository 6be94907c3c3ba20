/** How a run delegates to sub-agents (src/loro/runtime.py:646-674). */
module Delegation {
  import opened Common

  datatype Profile = Profile(
    tools: set<string>, mcpServers: set<string>, skills: set<string>, subagents: set<string>,
    memoryStores: set<string>, memoryScopes: set<string>, maxDepth: nat)

  /** A running agent: the profile it acts under, if any, and how deep it is. */
  datatype Agent = Agent(profile: Option<Profile>, depth: nat)

  function Narrow(child: Profile, parent: Profile): Profile {
    Profile(child.tools * parent.tools, child.mcpServers * parent.mcpServers, child.skills * parent.skills,
            child.subagents * parent.subagents, child.memoryStores * parent.memoryStores,
            child.memoryScopes * parent.memoryScopes, Min(child.maxDepth, parent.maxDepth))
  }

  /** `run_subagent`; `declared` is the profile that the name stands for. None: the delegation is refused. */
  function RunSubagent(a: Agent, name: string, declared: Profile): Option<Agent> {
    if a.profile.None? || name !in a.profile.value.subagents then None
    else if a.depth >= a.profile.value.maxDepth then None
    else Some(Agent(Some(Narrow(declared, a.profile.value)), a.depth + 1))
  }

  /** A delegation is granted exactly when the agent has a profile that names the delegate and allows one level more. */
  lemma GrantedExactlyWhen(a: Agent, name: string, declared: Profile)
    ensures RunSubagent(a, name, declared).Some? <==>
              a.profile.Some? && name in a.profile.value.subagents && a.depth + 1 <= a.profile.value.maxDepth
  {
  }

  /** The delegate has every capability that both profiles give it, and no other, one level down. */
  lemma DelegateHasWhatBothAllow(a: Agent, name: string, declared: Profile, x: string)
    requires RunSubagent(a, name, declared).Some?
    ensures var child, parent := RunSubagent(a, name, declared).value, a.profile.value;
            && child.depth == a.depth + 1 && child.profile.Some?
            && var p := child.profile.value;
            && (x in p.tools <==> x in declared.tools && x in parent.tools)
            && (x in p.mcpServers <==> x in declared.mcpServers && x in parent.mcpServers)
            && (x in p.skills <==> x in declared.skills && x in parent.skills)
            && (x in p.subagents <==> x in declared.subagents && x in parent.subagents)
            && (x in p.memoryStores <==> x in declared.memoryStores && x in parent.memoryStores)
            && (x in p.memoryScopes <==> x in declared.memoryScopes && x in parent.memoryScopes)
            && p.maxDepth <= declared.maxDepth && p.maxDepth <= parent.maxDepth
            && (p.maxDepth == declared.maxDepth || p.maxDepth == parent.maxDepth)
  {
  }

  datatype Link = Link(name: string, declared: Profile)

  /** The agent at the end of a chain of delegations; None if one of them is refused. */
  function Chain(root: Agent, links: seq<Link>): Option<Agent> {
    if links == [] then Some(root)
    else match Chain(root, links[..|links| - 1])
      case None => None
      case Some(a) => RunSubagent(a, links[|links| - 1].name, links[|links| - 1].declared)
  }

  /** The profiles that the delegation after link i of a chain passes through. */
  function Above(root: Profile, links: seq<Link>): (profiles: seq<Profile>)
    ensures |profiles| == |links| + 1 && profiles[0] == root
    ensures forall i :: 0 <= i < |links| ==> profiles[i + 1] == links[i].declared
  {
    [root] + seq(|links|, i requires 0 <= i < |links| => links[i].declared)
  }

  datatype Kind = Tools | McpServers | Skills | Subagents | MemoryStores | MemoryScopes

  function Allowed(p: Profile, kind: Kind): set<string> {
    match kind
    case Tools => p.tools
    case McpServers => p.mcpServers
    case Skills => p.skills
    case Subagents => p.subagents
    case MemoryStores => p.memoryStores
    case MemoryScopes => p.memoryScopes
  }

  /** The kinds of capability and the depth are all there is to a profile. */
  lemma ProfileIsItsKinds(p: Profile, q: Profile)
    requires p.maxDepth == q.maxDepth && forall kind :: Allowed(p, kind) == Allowed(q, kind)
    ensures p == q
  {
    assert Allowed(p, Tools) == Allowed(q, Tools) && Allowed(p, McpServers) == Allowed(q, McpServers);
    assert Allowed(p, Skills) == Allowed(q, Skills) && Allowed(p, Subagents) == Allowed(q, Subagents);
    assert Allowed(p, MemoryStores) == Allowed(q, MemoryStores);
    assert Allowed(p, MemoryScopes) == Allowed(q, MemoryScopes);
  }

  predicate AllAllow(profiles: seq<Profile>, kind: Kind, x: string) {
    forall q :: q in profiles ==> x in Allowed(q, kind)
  }

  /** The profile has the capability x of each kind exactly when all the profiles do, and their least depth. */
  ghost predicate HasWhatAllAllow(p: Profile, profiles: seq<Profile>, x: string) {
    && (forall kind :: x in Allowed(p, kind) <==> AllAllow(profiles, kind, x))
    && (forall q :: q in profiles ==> p.maxDepth <= q.maxDepth)
    && (exists q :: q in profiles && p.maxDepth == q.maxDepth)
  }

  lemma OneMoreAllows(root: Profile, p: Profile, links: seq<Link>, x: string)
    requires links != [] && HasWhatAllAllow(p, Above(root, links[..|links| - 1]), x)
    ensures HasWhatAllAllow(Narrow(links[|links| - 1].declared, p), Above(root, links), x)
  {
    var profiles, declared := Above(root, links[..|links| - 1]), links[|links| - 1].declared;
    assert Above(root, links) == profiles + [declared];
    OneMoreProfile(p, profiles, declared, x);
  }

  lemma OneMoreProfile(p: Profile, profiles: seq<Profile>, declared: Profile, x: string)
    requires HasWhatAllAllow(p, profiles, x)
    ensures HasWhatAllAllow(Narrow(declared, p), profiles + [declared], x)
  {
    var all := profiles + [declared];
    assert declared in all && forall q :: q in all <==> q in profiles || q == declared;
    forall kind ensures x in Allowed(Narrow(declared, p), kind) <==> AllAllow(all, kind, x) {
      assert Allowed(Narrow(declared, p), kind) == Allowed(declared, kind) * Allowed(p, kind);
      assert AllAllow(all, kind, x) <==> AllAllow(profiles, kind, x) && x in Allowed(declared, kind);
    }
    var least :| least in profiles && p.maxDepth == least.maxDepth;
    assert least in all;
  }

  /** Every profile passed through names the delegate and allows the depth it will run at. */
  predicate AllGrant(profiles: seq<Profile>, name: string, depth: nat) {
    forall p :: p in profiles ==> name in p.subagents && depth <= p.maxDepth
  }

  predicate LinkGranted(root: Profile, depth: nat, links: seq<Link>, i: nat)
    requires i < |links|
  {
    AllGrant(Above(root, links[..i]), links[i].name, depth + i + 1)
  }

  /**
   * A chain of delegations is granted exactly when, at each link, every profile passed so far names the delegate and
   * allows its depth; what stands at its end has exactly the capabilities that all of those profiles give.
   */
  lemma {:induction false} ChainGrantedExactlyWhen(root: Agent, links: seq<Link>, x: string)
    requires root.profile.Some?
    ensures Chain(root, links).Some? <==>
              forall i :: 0 <= i < |links| ==> LinkGranted(root.profile.value, root.depth, links, i)
    ensures Chain(root, links).Some? ==>
              var a := Chain(root, links).value;
              && a.depth == root.depth + |links| && a.profile.Some?
              && HasWhatAllAllow(a.profile.value, Above(root.profile.value, links), x)
  {
    hide HasWhatAllAllow, Narrow, LinkGranted, RunSubagent, Above;
    var p := root.profile.value;
    if links == [] {
      OnlyRoot(p, x);
    } else {
      var n := |links| - 1;
      var front := links[..n];
      ChainGrantedExactlyWhen(root, front, x);
      ChainGrantedExactlyWhen(root, front, links[n].name);
      forall i: nat | i < n ensures LinkGranted(p, root.depth, front, i) == LinkGranted(p, root.depth, links, i) {
        SameLinks(p, root.depth, links, i);
      }
      if Chain(root, front).Some? {
        var a := Chain(root, front).value;
        OneMoreGranted(p, root.depth, a, links);
        OneMoreAllows(p, a.profile.value, links, x);
      }
    }
  }

  lemma SameLinks(root: Profile, depth: nat, links: seq<Link>, i: nat)
    requires i < |links| - 1
    ensures LinkGranted(root, depth, links[..|links| - 1], i) == LinkGranted(root, depth, links, i)
  {
    assert links[..|links| - 1][..i] == links[..i];
  }

  lemma OnlyRoot(p: Profile, x: string)
    ensures HasWhatAllAllow(p, Above(p, []), x)
  {
    assert Above(p, []) == [p] && p in [p];
  }

  lemma OneMoreGranted(root: Profile, depth: nat, a: Agent, links: seq<Link>)
    requires links != [] && a.profile.Some? && a.depth == depth + |links| - 1
    requires HasWhatAllAllow(a.profile.value, Above(root, links[..|links| - 1]), links[|links| - 1].name)
    ensures var link := links[|links| - 1];
            var out := RunSubagent(a, link.name, link.declared);
            && (out.Some? <==> LinkGranted(root, depth, links, |links| - 1))
            && (out.Some? ==> out.value == Agent(Some(Narrow(link.declared, a.profile.value)), a.depth + 1))
  {
    var above, link := Above(root, links[..|links| - 1]), links[|links| - 1];
    assert link.name in Allowed(a.profile.value, Subagents) <==> AllAllow(above, Subagents, link.name);
  }

  predicate WithinOf(child: Profile, parent: Profile) {
    && child.tools <= parent.tools && child.mcpServers <= parent.mcpServers && child.skills <= parent.skills
    && child.subagents <= parent.subagents && child.memoryStores <= parent.memoryStores
    && child.memoryScopes <= parent.memoryScopes && child.maxDepth <= parent.maxDepth
  }

  /**
   * Whatever profiles the names stand for: nothing at the end of a chain can do what the root could not, every
   * delegate was named by the root's own profile, and a chain from a root at depth 0 is no longer than the
   * root's depth limit.
   */
  lemma {:induction false} ChainsOnlyNarrow(root: Agent, links: seq<Link>)
    requires Chain(root, links).Some?
    ensures var a := Chain(root, links).value;
            && a.depth == root.depth + |links|
            && (links != [] ==>
                  && root.profile.Some? && a.profile.Some? && WithinOf(a.profile.value, root.profile.value)
                  && a.depth <= root.profile.value.maxDepth
                  && (forall i :: 0 <= i < |links| ==> links[i].name in root.profile.value.subagents))
  {
    if links != [] {
      ChainsOnlyNarrow(root, links[..|links| - 1]);
      forall i | 0 <= i < |links| ensures links[i].name in root.profile.value.subagents {
        if i < |links| - 1 {
          assert links[..|links| - 1][i] == links[i];
        }
      }
    }
  }
}
