/**
 * `make_nginx_conf`: the load balancer's configuration, a fixed template
 * whose two slots are filled by `str.replace`.
 */
module Nginx {
  import opened Text
  import opened Numerals
  import opened Names

  const WorkerSlot := "[WORKER_CONNECTIONS]"
  const ServerSlot := "[SERVER_LIST]"

  /** The `worker_connections` argument `main` leaves at its default. */
  const DefaultWorkerConnections := 4096

  /** The raw template of lines 21-41, cut at its two slots. */
  const Before := "events {" + "\n    worker_connections "
  const Between := ";" + "\n}" + "\nhttp {" + "\n    upstream vllm_servers {" + "\n        "
  const TailLines := ServerHead + Timeouts + LocationTail
  const ServerHead := [
    "    }",
    "    server {",
    "        gzip on;",
    "        keepalive_timeout 600s;",
    "        proxy_read_timeout 600s;"]
  const Timeouts := [
    "        proxy_connect_timeout 600s;",
    "        proxy_send_timeout 600s;",
    "        fastcgi_read_timeout 600s;",
    "        listen 80;"]
  const LocationTail := [
    "        location / {",
    "            proxy_pass http://vllm_servers;",
    "        }",
    "    }",
    "}",
    ""]
  const After := "\n" + JoinLines(TailLines)

  const Template := Before + WorkerSlot + Between + ServerSlot + After

  /** The indentation and server-name prefix of an upstream line. */
  const UpstreamPrefix := "        server vllm-server-"

  /** `f"server vllm-server-{i}:8000;"` */
  function UpstreamEntry(i: nat): string
  {
    "server " + ServiceName(i) + ":8000;"
  }

  /** `"\n        ".join(...)` over `range(n_servers)`. */
  function ServerList(nServers: nat): string
  {
    JoinWith(Entries(nServers), "\n        ")
  }

  /** `make_nginx_conf(worker_connections, n_servers)` */
  function MakeNginxConf(workerConnections: int, nServers: nat): string
  {
    Replace(Replace(Template, WorkerSlot, IntToString(workerConnections)), ServerSlot, ServerList(nServers))
  }

  function Entries(nServers: nat): (r: seq<string>)
    ensures |r| == nServers
  {
    seq(nServers, i requires 0 <= i < nServers => UpstreamEntry(i))
  }

  /** The upstream lines: one indented entry per server, or a lone indentation for none. */
  function UpstreamLines(nServers: nat): (r: seq<string>)
    ensures |r| == if nServers == 0 then 1 else nServers
  {
    if nServers == 0 then ["        "] else Indented(Entries(nServers), "        ")
  }

  // ---------------------------------------------------------------------
  // Facts

  lemma TailAvoidsBracket()
    ensures forall k :: 0 <= k < |TailLines| ==> '[' !in TailLines[k]
  {
    ServerHeadAvoids();
    TimeoutsAvoid();
    LocationTailAvoids();
    LacksConcat(ServerHead, Timeouts, '[');
    LacksConcat(ServerHead + Timeouts, LocationTail, '[');
  }

  lemma ServerHeadAvoids()
    ensures forall k :: 0 <= k < |ServerHead| ==> '[' !in ServerHead[k]
  {
  }

  lemma TimeoutsAvoid()
    ensures forall k :: 0 <= k < |Timeouts| ==> '[' !in Timeouts[k]
  {
  }

  lemma LocationTailAvoids()
    ensures forall k :: 0 <= k < |LocationTail| ==> '[' !in LocationTail[k]
  {
  }

  lemma BeforeAvoidsBracket()
    ensures '[' !in Before
  {
  }

  lemma BetweenAvoidsBracket()
    ensures '[' !in Between
  {
  }

  lemma AfterAvoids(c: char)
    requires c !in "\n"
    requires forall k :: 0 <= k < |TailLines| ==> c !in TailLines[k]
    ensures c !in After
  {
    JoinAvoids(TailLines, "\n", c);
  }

  /**
   * Filling the slots: the worker count lands in the `worker_connections`
   * slot, the server list in the upstream slot, and the fixed text around
   * them is unchanged.
   */
  lemma MakeNginxConfText(workerConnections: int, nServers: nat)
    ensures MakeNginxConf(workerConnections, nServers)
         == Before + IntToString(workerConnections) + Between + ServerList(nServers) + After
  {
    var d, u := IntToString(workerConnections), ServerList(nServers);
    FillWorkerSlot(d);
    IntToStringChars(workerConnections);
    BeforeAvoidsBracket();
    BetweenAvoidsBracket();
    assert '[' !in Before + d + Between;
    FillServerSlot(Before + d + Between, u);
  }

  lemma FillWorkerSlot(d: string)
    ensures Replace(Template, WorkerSlot, d) == Before + d + Between + ServerSlot + After
  {
    var rest := Between + ServerSlot + After;
    RestAvoidsWorkerSlot();
    BeforeAvoidsBracket();
    SlotsBracket();
    Regroup(Before + WorkerSlot);
    ReplaceOnce(Before, WorkerSlot, rest, d);
    Regroup(Before + d);
  }

  /**
   * The only `[` after the worker slot opens the server slot, whose second
   * character is not the worker slot's.
   */
  lemma RestAvoidsWorkerSlot()
    ensures NoOccur(Between + ServerSlot + After, WorkerSlot)
  {
    TailAvoidsBracket();
    AfterAvoids('[');
    BetweenAvoidsBracket();
    SlotsDiffer();
    assert (ServerSlot + After)[1..] == ServerSlot[1..] + After;
    NoOccurAtMark(Between, ServerSlot + After, WorkerSlot);
    Assoc(Between, ServerSlot, After);
  }

  /** `x` followed by the rest of the template, grouped either way. */
  lemma Regroup(x: string)
    ensures x + (Between + ServerSlot + After) == x + Between + ServerSlot + After
  {
    Assoc(x, Between + ServerSlot, After);
    Assoc(x, Between, ServerSlot);
  }

  lemma SlotsBracket()
    ensures WorkerSlot[0] == '[' && ServerSlot[0] == '['
  {
  }

  lemma SlotsDiffer()
    ensures '[' !in ServerSlot[1..] && ServerSlot[1] != WorkerSlot[1]
  {
  }

  lemma FillServerSlot(front: string, u: string)
    requires '[' !in front
    ensures Replace(front + ServerSlot + After, ServerSlot, u) == front + u + After
  {
    TailAvoidsBracket();
    AfterAvoids('[');
    NoOccurByChar(After, ServerSlot, '[');
    ReplaceOnce(front, ServerSlot, After, u);
  }

  /**
   * The slot of the upstream list holds one line per server, in increasing
   * order; a reader of those lines finds exactly the indices
   * `0 .. nServers - 1`.
   */
  lemma UpstreamText(nServers: nat)
    ensures "        " + ServerList(nServers) == JoinLines(UpstreamLines(nServers))
    ensures Pick(UpstreamLines(nServers), UpstreamPrefix, ":8000;") == Indices(nServers)
  {
    var pre, suf := UpstreamPrefix, ":8000;";
    if nServers > 0 {
      assert "\n" + "        " == "\n        ";
      JoinPrefixed(Entries(nServers), "        ");
      forall i | 0 <= i < nServers
        ensures UpstreamLines(nServers)[i] == Framing(Indices(nServers), pre, suf)[i]
      {
        UpstreamLine(i);
      }
      assert UpstreamLines(nServers) == Framing(Indices(nServers), pre, suf);
      PickFraming(Indices(nServers), pre, suf);
    } else {
      assert !StartsWith("        ", pre);
    }
  }

  lemma UpstreamLine(i: nat)
    ensures "        " + UpstreamEntry(i) == UpstreamPrefix + IntToString(i) + ":8000;"
  {
  }

  lemma EntryAvoidsBracket(i: nat)
    ensures '[' !in UpstreamEntry(i)
  {
    IntToStringChars(i);
  }

  /** No slot text survives in the rendered configuration. */
  lemma NoSlotsLeft(workerConnections: int, nServers: nat)
    ensures NoOccur(MakeNginxConf(workerConnections, nServers), WorkerSlot)
    ensures NoOccur(MakeNginxConf(workerConnections, nServers), ServerSlot)
  {
    MakeNginxConfText(workerConnections, nServers);
    var entries := Entries(nServers);
    forall k | 0 <= k < nServers ensures '[' !in entries[k] {
      EntryAvoidsBracket(k);
    }
    JoinAvoids(entries, "\n        ", '[');
    IntToStringChars(workerConnections);
    TailAvoidsBracket();
    AfterAvoids('[');
    BeforeAvoidsBracket();
    BetweenAvoidsBracket();
    var conf := MakeNginxConf(workerConnections, nServers);
    assert '[' !in conf;
    NoOccurByChar(conf, WorkerSlot, '[');
    NoOccurByChar(conf, ServerSlot, '[');
  }
}
