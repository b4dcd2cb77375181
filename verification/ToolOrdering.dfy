/** Ordering and filtering the tools of one model call by active MCP server (`mcp.py`). */
module ToolOrdering {
  import opened Sorting
  import opened Strings

  /** `definition` stands for the rest of the tool. */
  datatype Tool = Tool(name: string, definition: int)

  predicate Belongs(tool: Tool, server: string) {
    StartsWith(tool.name, server + "_")
  }

  /** The first active server whose prefix the name has, or the number of servers. */
  function ServerOf(tool: Tool, active: seq<string>): (k: nat)
    ensures k <= |active|
    ensures k < |active| ==> Belongs(tool, active[k])
    ensures forall i :: 0 <= i < k ==> !Belongs(tool, active[i])
  {
    if active == [] || Belongs(tool, active[0]) then 0 else 1 + ServerOf(tool, active[1..])
  }

  /** The tools of a list that satisfy a condition, in their order. */
  function Select(tools: seq<Tool>, keep: Tool -> bool): seq<Tool> {
    if tools == [] then []
    else if keep(tools[0]) then [tools[0]] + Select(tools[1..], keep)
    else Select(tools[1..], keep)
  }

  function NonMcp(mcpNames: set<string>): Tool -> bool {
    (t: Tool) => t.name !in mcpNames
  }

  /** MCP tools in the bucket of a server: those whose first matching server has that name. */
  function FallsTo(mcpNames: set<string>, active: seq<string>, server: string): Tool -> bool {
    (t: Tool) => t.name in mcpNames && ServerOf(t, active) < |active| && active[ServerOf(t, active)] == server
  }

  function OtherMcp(mcpNames: set<string>, active: seq<string>): Tool -> bool {
    (t: Tool) => t.name in mcpNames && ServerOf(t, active) == |active|
  }

  /** The buckets of some of the servers, one after the other. */
  function Buckets(tools: seq<Tool>, mcpNames: set<string>, active: seq<string>, servers: seq<string>): seq<Tool> {
    if servers == [] then []
    else Select(tools, FallsTo(mcpNames, active, servers[0])) + Buckets(tools, mcpNames, active, servers[1..])
  }

  /**
   * Non-MCP tools, then the active servers in their order, then the other MCP tools; unchanged when no
   * server is active.
   */
  function Prioritized(tools: seq<Tool>, mcpNames: set<string>, active: seq<string>): seq<Tool> {
    if active == [] then tools
    else
      Select(tools, NonMcp(mcpNames)) + Buckets(tools, mcpNames, active, active)
          + Select(tools, OtherMcp(mcpNames, active))
  }

  /** What the filter lets through. */
  function Allowed(mcpNames: set<string>, active: seq<string>): Tool -> bool {
    (t: Tool) => t.name !in mcpNames || exists i :: 0 <= i < |active| && Belongs(t, active[i])
  }

  lemma {:induction false} SelectAppend(a: seq<Tool>, b: seq<Tool>, keep: Tool -> bool)
    ensures Select(a + b, keep) == Select(a, keep) + Select(b, keep)
  {
    if a == [] {
      assert a + b == b;
    } else {
      assert (a + b)[1..] == a[1..] + b;
      SelectAppend(a[1..], b, keep);
    }
  }

  lemma SelectCons(t: Tool, rest: seq<Tool>, keep: Tool -> bool)
    ensures Select([t] + rest, keep) == if keep(t) then [t] + Select(rest, keep) else Select(rest, keep)
  {
    assert ([t] + rest)[1..] == rest;
  }

  lemma SelectNext(tools: seq<Tool>, i: nat, keep: Tool -> bool)
    requires i < |tools|
    ensures Select(tools[..i + 1], keep) == Select(tools[..i], keep) + if keep(tools[i]) then [tools[i]] else []
  {
    assert tools[..i + 1] == tools[..i] + [tools[i]];
    SelectAppend(tools[..i], [tools[i]], keep);
  }

  // ---------------------------------------------------------------- the loops

  /** `active_servers` may be absent; an empty list counts as absent. */
  function Servers(active: Option<seq<string>>): seq<string> {
    if active.Some? then active.value else []
  }

  /** The three collections hold what they should of the tools seen so far. */
  ghost predicate Collected(tools: seq<Tool>, mcpNames: set<string>, servers: seq<string>,
                         nonMcp: seq<Tool>, buckets: map<string, seq<Tool>>, otherMcp: seq<Tool>) {
    && nonMcp == Select(tools, NonMcp(mcpNames))
    && otherMcp == Select(tools, OtherMcp(mcpNames, servers))
    && forall s :: s in servers ==> s in buckets && buckets[s] == Select(tools, FallsTo(mcpNames, servers, s))
  }

  lemma SortedNext(tools: seq<Tool>, i: nat, mcpNames: set<string>, servers: seq<string>,
                   nonMcp: seq<Tool>, buckets: map<string, seq<Tool>>, otherMcp: seq<Tool>)
    requires i < |tools| && Collected(tools[..i], mcpNames, servers, nonMcp, buckets, otherMcp)
    ensures var t := tools[i];
            var k := ServerOf(t, servers);
            if t.name !in mcpNames then Collected(tools[..i + 1], mcpNames, servers, nonMcp + [t], buckets, otherMcp)
            else if k == |servers| then Collected(tools[..i + 1], mcpNames, servers, nonMcp, buckets, otherMcp + [t])
            else Collected(tools[..i + 1], mcpNames, servers, nonMcp,
                           buckets[servers[k] := buckets[servers[k]] + [t]], otherMcp)
  {
    SelectNext(tools, i, NonMcp(mcpNames));
    SelectNext(tools, i, OtherMcp(mcpNames, servers));
    forall s | s in servers
      ensures Select(tools[..i + 1], FallsTo(mcpNames, servers, s))
           == Select(tools[..i], FallsTo(mcpNames, servers, s))
               + if FallsTo(mcpNames, servers, s)(tools[i]) then [tools[i]] else []
    {
      SelectNext(tools, i, FallsTo(mcpNames, servers, s));
    }
  }

  method PrioritizeActiveMcpTools(tools: seq<Tool>, mcpNames: set<string>, active: Option<seq<string>>)
    returns (r: seq<Tool>)
    ensures r == Prioritized(tools, mcpNames, Servers(active))
  {
    var servers := Servers(active);
    if servers == [] {
      return tools;
    }
    var nonMcp, otherMcp := [], [];
    var activeByServer := map s | s in servers :: [];
    for i := 0 to |tools|
      invariant Collected(tools[..i], mcpNames, servers, nonMcp, activeByServer, otherMcp)
    {
      var tool := tools[i];
      SortedNext(tools, i, mcpNames, servers, nonMcp, activeByServer, otherMcp);
      if tool.name !in mcpNames {
        nonMcp := nonMcp + [tool];
        continue;
      }
      var k := FirstMatch(tool, servers);
      if k < |servers| {
        activeByServer := activeByServer[servers[k] := activeByServer[servers[k]] + [tool]];
      } else {
        otherMcp := otherMcp + [tool];
      }
    }
    assert tools[..|tools|] == tools;
    var orderedActive := Concatenated(tools, mcpNames, servers, activeByServer);
    return nonMcp + orderedActive + otherMcp;
  }

  /** The loop behind it: the buckets of the active servers, in the servers' order. */
  method Concatenated(ghost tools: seq<Tool>, ghost mcpNames: set<string>, servers: seq<string>,
                      buckets: map<string, seq<Tool>>)
    returns (orderedActive: seq<Tool>)
    requires forall s :: s in servers ==> s in buckets && buckets[s] == Select(tools, FallsTo(mcpNames, servers, s))
    ensures orderedActive == Buckets(tools, mcpNames, servers, servers)
  {
    orderedActive := [];
    for j := 0 to |servers|
      invariant orderedActive + Buckets(tools, mcpNames, servers, servers[j..]) ==
                Buckets(tools, mcpNames, servers, servers)
    {
      assert servers[j..][0] == servers[j] && servers[j..][1..] == servers[j + 1..];
      orderedActive := orderedActive + buckets[servers[j]];
    }
  }

  /** The inner loop: the first server whose prefix the name has. */
  method FirstMatch(tool: Tool, servers: seq<string>) returns (k: nat)
    ensures k == ServerOf(tool, servers)
  {
    for i := 0 to |servers|
      invariant forall j :: 0 <= j < i ==> !Belongs(tool, servers[j])
    {
      if Belongs(tool, servers[i]) {
        return i;
      }
    }
    return |servers|;
  }

  method FilterToolsForMcpServers(tools: seq<Tool>, mcpNames: set<string>, active: Option<seq<string>>)
    returns (r: seq<Tool>)
    ensures r == Select(tools, Allowed(mcpNames, Servers(active)))
  {
    var servers := Servers(active);
    if mcpNames == {} {
      SelectAll(tools, Allowed(mcpNames, servers));
      return tools;
    }
    r := [];
    for i := 0 to |tools|
      invariant r == Select(tools[..i], Allowed(mcpNames, servers))
    {
      SelectNext(tools, i, Allowed(mcpNames, servers));
      if tools[i].name !in mcpNames {
        r := r + [tools[i]];
        continue;
      }
      var k := FirstMatch(tools[i], servers);
      if k < |servers| {
        r := r + [tools[i]];
      }
    }
    assert tools[..|tools|] == tools;
  }

  lemma {:induction false} SelectAll(tools: seq<Tool>, keep: Tool -> bool)
    requires forall t :: t in tools ==> keep(t)
    ensures Select(tools, keep) == tools
  {
    if tools == [] {
    } else {
      assert tools[0] in tools && forall t :: t in tools[1..] ==> t in tools;
      SelectAll(tools[1..], keep);
    }
  }

  // ---------------------------------------------------------------- results

  lemma {:induction false} SelectCounts(tools: seq<Tool>, keep: Tool -> bool, t: Tool)
    ensures multiset(Select(tools, keep))[t] == if keep(t) then multiset(tools)[t] else 0
  {
    if tools == [] {
    } else {
      assert tools == [tools[0]] + tools[1..];
      SelectCounts(tools[1..], keep, t);
    }
  }

  lemma {:induction false} BucketsCount(tools: seq<Tool>, mcpNames: set<string>, active: seq<string>,
                                        servers: seq<string>, t: Tool)
    ensures var k := ServerOf(t, active);
            multiset(Buckets(tools, mcpNames, active, servers))[t]
            == if t.name in mcpNames && k < |active| then multiset(servers)[active[k]] * multiset(tools)[t] else 0
  {
    if servers == [] {
    } else {
      var rest, k, n := servers[1..], ServerOf(t, active), multiset(tools)[t];
      assert servers == [servers[0]] + rest;
      BucketsCount(tools, mcpNames, active, rest, t);
      SelectCounts(tools, FallsTo(mcpNames, active, servers[0]), t);
      CountOfTwo(Select(tools, FallsTo(mcpNames, active, servers[0])), Buckets(tools, mcpNames, active, rest), t);
      if t.name in mcpNames && k < |active| {
        var m := multiset(rest)[active[k]];
        OneMore(m, n);
        assert multiset(servers)[active[k]] == if servers[0] == active[k] then m + 1 else m;
      }
    }
  }

  lemma OneMore(m: int, n: int)
    ensures (m + 1) * n == m * n + n
  {
  }

  lemma CountOfTwo(a: seq<Tool>, b: seq<Tool>, t: Tool)
    ensures multiset(a + b)[t] == multiset(a)[t] + multiset(b)[t]
  {
  }

  /** How often a tool of the list is in the result: once, but once per mention of the server it falls to. */
  function Copies(t: Tool, mcpNames: set<string>, active: seq<string>): nat {
    var k := ServerOf(t, active);
    if active != [] && t.name in mcpNames && k < |active| then multiset(active)[active[k]] else 1
  }

  lemma PrioritizedCount(tools: seq<Tool>, mcpNames: set<string>, active: seq<string>, t: Tool)
    ensures multiset(Prioritized(tools, mcpNames, active))[t] == Copies(t, mcpNames, active) * multiset(tools)[t]
  {
    BucketsCount(tools, mcpNames, active, active, t);
    SelectCounts(tools, NonMcp(mcpNames), t);
    SelectCounts(tools, OtherMcp(mcpNames, active), t);
    CountOfThree(Select(tools, NonMcp(mcpNames)), Buckets(tools, mcpNames, active, active),
                 Select(tools, OtherMcp(mcpNames, active)), t);
  }

  lemma CountOfThree(a: seq<Tool>, b: seq<Tool>, c: seq<Tool>, t: Tool)
    ensures multiset(a + b + c)[t] == multiset(a)[t] + multiset(b)[t] + multiset(c)[t]
  {
  }

  /** Nothing is lost or repeated exactly when no server that is named twice owns a tool. */
  lemma PermutationUnlessRepeated(tools: seq<Tool>, mcpNames: set<string>, active: seq<string>)
    ensures multiset(Prioritized(tools, mcpNames, active)) == multiset(tools)
       <==> forall t :: t in tools ==> Copies(t, mcpNames, active) == 1
  {
    var result := Prioritized(tools, mcpNames, active);
    forall t
      ensures multiset(result)[t] == multiset(tools)[t] <==> t !in tools || Copies(t, mcpNames, active) == 1
    {
      SameCount(tools, mcpNames, active, t);
    }
    SameCounts(result, tools);
  }

  lemma SameCount(tools: seq<Tool>, mcpNames: set<string>, active: seq<string>, t: Tool)
    ensures multiset(Prioritized(tools, mcpNames, active))[t] == multiset(tools)[t] <==>
            t !in tools || Copies(t, mcpNames, active) == 1
  {
    PrioritizedCount(tools, mcpNames, active, t);
    var copies, n := Copies(t, mcpNames, active), multiset(tools)[t];
    assert n > 0 <==> t in tools;
    if n > 0 && copies * n == n {
      OneCopy(copies, n);
    }
  }

  lemma SameCounts(a: seq<Tool>, b: seq<Tool>)
    ensures multiset(a) == multiset(b) <==> forall t :: multiset(a)[t] == multiset(b)[t]
  {
  }

  lemma OneCopy(copies: nat, n: nat)
    requires n > 0 && copies * n == n
    ensures copies == 1
  {
  }

  // ---------------------------------------------------------------- a stable sort

  /** 0 for other tools, and for MCP tools one more than the place of their server; the servers come last of all. */
  function Rank(t: Tool, mcpNames: set<string>, active: seq<string>): nat {
    if t.name !in mcpNames then 0 else 1 + ServerOf(t, active)
  }

  function Earlier(mcpNames: set<string>, active: seq<string>): (Tool, Tool) -> bool {
    (a: Tool, b: Tool) => Rank(a, mcpNames, active) < Rank(b, mcpNames, active)
  }

  predicate Distinct(servers: seq<string>) {
    forall i, j :: 0 <= i < j < |servers| ==> servers[i] != servers[j]
  }

  /** The MCP tools from the k-th active server on, as the result has them. */
  function From(tools: seq<Tool>, mcpNames: set<string>, active: seq<string>, k: nat): seq<Tool>
    requires k <= |active|
  {
    Buckets(tools, mcpNames, active, active[k..]) + Select(tools, OtherMcp(mcpNames, active))
  }

  lemma {:induction false} Selected(tools: seq<Tool>, keep: Tool -> bool)
    ensures forall t :: t in Select(tools, keep) ==> t in tools && keep(t)
  {
    if tools == [] {
    } else {
      Selected(tools[1..], keep);
      assert tools[0] in tools && forall t :: t in tools[1..] ==> t in tools;
    }
  }

  lemma FromStep(tools: seq<Tool>, mcpNames: set<string>, active: seq<string>, k: nat)
    requires k < |active|
    ensures From(tools, mcpNames, active, k)
         == Select(tools, FallsTo(mcpNames, active, active[k])) + From(tools, mcpNames, active, k + 1)
  {
    assert active[k..][0] == active[k] && active[k..][1..] == active[k + 1..];
  }

  lemma {:induction false} FromRanks(tools: seq<Tool>, mcpNames: set<string>, active: seq<string>, k: nat)
    requires k <= |active| && Distinct(active)
    ensures forall t :: t in From(tools, mcpNames, active, k) ==> t.name in mcpNames && ServerOf(t, active) >= k
    decreases |active| - k
  {
    if k == |active| {
      Selected(tools, OtherMcp(mcpNames, active));
      assert From(tools, mcpNames, active, k) == Select(tools, OtherMcp(mcpNames, active));
    } else {
      FromStep(tools, mcpNames, active, k);
      FromRanks(tools, mcpNames, active, k + 1);
      Selected(tools, FallsTo(mcpNames, active, active[k]));
    }
  }

  /** A tool that belongs before the k-th server adds nothing behind it. */
  lemma {:induction false} FromSkips(t: Tool, rest: seq<Tool>, mcpNames: set<string>, active: seq<string>, k: nat)
    requires k <= |active| && Distinct(active)
    requires t.name !in mcpNames || ServerOf(t, active) < k
    ensures From([t] + rest, mcpNames, active, k) == From(rest, mcpNames, active, k)
    decreases |active| - k
  {
    if k == |active| {
      assert active[k..] == [];
      SelectCons(t, rest, OtherMcp(mcpNames, active));
    } else {
      FromStep([t] + rest, mcpNames, active, k);
      FromStep(rest, mcpNames, active, k);
      SelectCons(t, rest, FallsTo(mcpNames, active, active[k]));
      FromSkips(t, rest, mcpNames, active, k + 1);
    }
  }

  /** A further tool in front takes its place by rank. */
  lemma {:induction false} FromInserts(t: Tool, rest: seq<Tool>, mcpNames: set<string>, active: seq<string>, k: nat)
    requires k <= |active| && Distinct(active)
    requires t.name in mcpNames && ServerOf(t, active) >= k
    ensures From([t] + rest, mcpNames, active, k)
         == Insert(Earlier(mcpNames, active), t, From(rest, mcpNames, active, k))
    decreases |active| - k
  {
    if k < |active| && ServerOf(t, active) > k {
      var bucket := Select(rest, FallsTo(mcpNames, active, active[k]));
      FromStep([t] + rest, mcpNames, active, k);
      FromStep(rest, mcpNames, active, k);
      SelectCons(t, rest, FallsTo(mcpNames, active, active[k]));
      Selected(rest, FallsTo(mcpNames, active, active[k]));
      FallsHere(bucket, mcpNames, active, k);
      FromInserts(t, rest, mcpNames, active, k + 1);
      InsertPast(Earlier(mcpNames, active), t, bucket, From(rest, mcpNames, active, k + 1));
    } else {
      HeadOfBucket(t, rest, mcpNames, active, k);
      InsertAtHead(t, rest, mcpNames, active, k);
    }
  }

  lemma Associative(a: seq<Tool>, b: seq<Tool>, c: seq<Tool>)
    ensures (a + b) + c == a + (b + c)
  {
  }

  lemma HeadIsKept(t: Tool, rest: seq<Tool>, mcpNames: set<string>, active: seq<string>, k: nat)
    requires k < |active| && t.name in mcpNames && ServerOf(t, active) == k
    ensures var keep := FallsTo(mcpNames, active, active[k]);
            Select([t] + rest, keep) == [t] + Select(rest, keep)
  {
    SelectCons(t, rest, FallsTo(mcpNames, active, active[k]));
  }

  /** In the bucket it falls to, a further tool in front comes first. */
  lemma HeadOfBucket(t: Tool, rest: seq<Tool>, mcpNames: set<string>, active: seq<string>, k: nat)
    requires k <= |active| && Distinct(active)
    requires t.name in mcpNames && ServerOf(t, active) == k
    ensures From([t] + rest, mcpNames, active, k) == [t] + From(rest, mcpNames, active, k)
  {
    if k == |active| {
      assert active[k..] == [];
      SelectCons(t, rest, OtherMcp(mcpNames, active));
    } else {
      var keep := FallsTo(mcpNames, active, active[k]);
      FromStep([t] + rest, mcpNames, active, k);
      FromStep(rest, mcpNames, active, k);
      FromSkips(t, rest, mcpNames, active, k + 1);
      HeadIsKept(t, rest, mcpNames, active, k);
      Associative([t], Select(rest, keep), From(rest, mcpNames, active, k + 1));
    }
  }

  lemma InsertAtHead(t: Tool, rest: seq<Tool>, mcpNames: set<string>, active: seq<string>, k: nat)
    requires k <= |active| && Distinct(active)
    requires t.name in mcpNames && ServerOf(t, active) == k
    ensures Insert(Earlier(mcpNames, active), t, From(rest, mcpNames, active, k)) ==
            [t] + From(rest, mcpNames, active, k)
  {
    FromRanks(rest, mcpNames, active, k);
    InsertInFront(Earlier(mcpNames, active), t, From(rest, mcpNames, active, k));
  }

  lemma FallsHere(bucket: seq<Tool>, mcpNames: set<string>, active: seq<string>, k: nat)
    requires k < |active| && Distinct(active)
    requires forall x :: x in bucket ==> FallsTo(mcpNames, active, active[k])(x)
    ensures forall x :: x in bucket ==> Rank(x, mcpNames, active) == 1 + k
  {
  }

  /** With distinct active servers, the result is the stable sort of the tools by rank. */
  lemma {:induction false} PrioritizedIsStableSort(tools: seq<Tool>, mcpNames: set<string>, active: seq<string>)
    requires active != [] && Distinct(active)
    ensures Prioritized(tools, mcpNames, active) == Sort(Earlier(mcpNames, active), tools)
  {
    if tools == [] {
      NothingPrioritized(mcpNames, active, active);
    } else {
      PrioritizedIsStableSort(tools[1..], mcpNames, active);
      PrioritizedInserts(tools[0], tools[1..], mcpNames, active);
      assert [tools[0]] + tools[1..] == tools;
    }
  }

  lemma PrioritizedParts(tools: seq<Tool>, mcpNames: set<string>, active: seq<string>)
    requires active != []
    ensures Prioritized(tools, mcpNames, active) == Select(tools, NonMcp(mcpNames)) + From(tools, mcpNames, active, 0)
  {
    assert active[0..] == active;
  }

  lemma PrioritizedInserts(t: Tool, rest: seq<Tool>, mcpNames: set<string>, active: seq<string>)
    requires active != [] && Distinct(active)
    ensures Prioritized([t] + rest, mcpNames, active) ==
            Insert(Earlier(mcpNames, active), t, Prioritized(rest, mcpNames, active))
  {
    PrioritizedParts([t] + rest, mcpNames, active);
    PrioritizedParts(rest, mcpNames, active);
    PartsInsert(t, rest, mcpNames, active);
  }

  lemma PartsInsert(t: Tool, rest: seq<Tool>, mcpNames: set<string>, active: seq<string>)
    requires Distinct(active)
    ensures Select([t] + rest, NonMcp(mcpNames)) + From([t] + rest, mcpNames, active, 0)
         == Insert(Earlier(mcpNames, active), t, Select(rest, NonMcp(mcpNames)) + From(rest, mcpNames, active, 0))
  {
    var before, first, f := Earlier(mcpNames, active), Select(rest, NonMcp(mcpNames)), From(rest, mcpNames, active, 0);
    SelectCons(t, rest, NonMcp(mcpNames));
    Selected(rest, NonMcp(mcpNames));
    if t.name in mcpNames {
      FromInserts(t, rest, mcpNames, active, 0);
      InsertPast(before, t, first, f);
    } else {
      FromSkips(t, rest, mcpNames, active, 0);
      InsertInFront(before, t, first + f);
      Associative([t], first, f);
    }
  }

  lemma {:induction false} NothingPrioritized(mcpNames: set<string>, active: seq<string>, servers: seq<string>)
    ensures Buckets([], mcpNames, active, servers) == []
  {
    if servers == [] {
    } else {
      NothingPrioritized(mcpNames, active, servers[1..]);
    }
  }

  // ---------------------------------------------------------------- ordering and filtering

  lemma {:induction false} SelectSwap(tools: seq<Tool>, p: Tool -> bool, q: Tool -> bool)
    ensures Select(Select(tools, p), q) == Select(Select(tools, q), p)
  {
    if tools == [] {
    } else {
      SelectSwap(tools[1..], p, q);
      assert forall s: seq<Tool> :: ([tools[0]] + s)[1..] == s;
    }
  }

  lemma {:induction false} BucketsSwap(tools: seq<Tool>, mcpNames: set<string>, active: seq<string>,
                                       servers: seq<string>, keep: Tool -> bool)
    ensures Select(Buckets(tools, mcpNames, active, servers), keep) ==
            Buckets(Select(tools, keep), mcpNames, active, servers)
  {
    if servers == [] {
    } else {
      var bucket := Select(tools, FallsTo(mcpNames, active, servers[0]));
      SelectAppend(bucket, Buckets(tools, mcpNames, active, servers[1..]), keep);
      SelectSwap(tools, FallsTo(mcpNames, active, servers[0]), keep);
      BucketsSwap(tools, mcpNames, active, servers[1..], keep);
    }
  }

  /** Ordering and filtering may be done in either order, whatever the filter. */
  lemma FilterCommutes(tools: seq<Tool>, mcpNames: set<string>, active: seq<string>, keep: Tool -> bool)
    ensures Select(Prioritized(tools, mcpNames, active), keep) == Prioritized(Select(tools, keep), mcpNames, active)
  {
    if active != [] {
      var first, second, third := Select(tools, NonMcp(mcpNames)), Buckets(tools, mcpNames, active, active),
        Select(tools, OtherMcp(mcpNames, active));
      SelectAppend(first + second, third, keep);
      SelectAppend(first, second, keep);
      SelectSwap(tools, NonMcp(mcpNames), keep);
      BucketsSwap(tools, mcpNames, active, active, keep);
      SelectSwap(tools, OtherMcp(mcpNames, active), keep);
    }
  }

  /** The filter for the same servers removes exactly the last group. */
  lemma FilterDropsOthers(tools: seq<Tool>, mcpNames: set<string>, active: seq<string>)
    requires active != []
    ensures Select(Prioritized(tools, mcpNames, active), Allowed(mcpNames, active))
         == Select(tools, NonMcp(mcpNames)) + Buckets(tools, mcpNames, active, active)
  {
    var first, second, third := Select(tools, NonMcp(mcpNames)), Buckets(tools, mcpNames, active, active),
      Select(tools, OtherMcp(mcpNames, active));
    SelectAppend(first + second, third, Allowed(mcpNames, active));
    SelectAppend(first, second, Allowed(mcpNames, active));
    Selected(tools, NonMcp(mcpNames));
    Selected(tools, OtherMcp(mcpNames, active));
    BucketsAllowed(tools, mcpNames, active, active);
    SelectAll(first, Allowed(mcpNames, active));
    SelectAll(second, Allowed(mcpNames, active));
    SelectNone(third, Allowed(mcpNames, active));
  }

  lemma {:induction false} SelectNone(tools: seq<Tool>, keep: Tool -> bool)
    requires forall t :: t in tools ==> !keep(t)
    ensures Select(tools, keep) == []
  {
    if tools == [] {
    } else {
      assert tools[0] in tools && forall t :: t in tools[1..] ==> t in tools;
      SelectNone(tools[1..], keep);
    }
  }

  lemma {:induction false} BucketsAllowed(tools: seq<Tool>, mcpNames: set<string>, active: seq<string>,
                                          servers: seq<string>)
    ensures forall t :: t in Buckets(tools, mcpNames, active, servers) ==> Allowed(mcpNames, active)(t)
  {
    if servers == [] {
    } else {
      Selected(tools, FallsTo(mcpNames, active, servers[0]));
      BucketsAllowed(tools, mcpNames, active, servers[1..]);
    }
  }

  /** A tool is a server's own exactly if its name is the server's, an underscore and the rest. */
  lemma NameOfOwn(tool: Tool, server: string)
    ensures Belongs(tool, server) <==>
            |tool.name| > |server| && tool.name[..|server|] == server && tool.name[|server|] == '_'
  {
    if |tool.name| > |server| {
      assert tool.name[..|server| + 1] == tool.name[..|server|] + [tool.name[|server|]];
    }
  }

  /** Without active servers the order stays, and only the non-MCP tools pass the filter. */
  lemma NoActiveServers(tools: seq<Tool>, mcpNames: set<string>, t: Tool)
    ensures Prioritized(tools, mcpNames, Servers(None)) == Prioritized(tools, mcpNames, Servers(Some([]))) == tools
    ensures Allowed(mcpNames, [])(t) <==> t.name !in mcpNames
  {
  }
}
