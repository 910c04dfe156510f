/**
 * `make_docker_compose_yml`: the compose manifest. An f-string template
 * carrying three marker lines is rendered first; the credential lines are
 * then spliced in before the markers with `str.replace`, and the markers
 * (and, without credentials, the `environment:` header) are removed.
 */
module Compose {
  import opened Text
  import opened Numerals
  import opened Names
  import opened Params

  const NewVolume := "    # NEW VOLUME HERE"
  const NewEnvironment := "    # NEW ENVIRONMENT HERE"
  const EnvStarter := "  environment:"
  const TokenMount := "/root/.cache/hf_hub_token"
  const DefaultHfHome := "~/.cache/huggingface/"

  const CommentLine := "    - --disable-log-requests" + "   # To save your eyes from the logs"
  const NginxVolumeLine := "      - ./nginx.conf" + ":/etc/nginx/nginx.conf:ro"

  // ---------------------------------------------------------------------
  // The template

  /** `str(list(map(str, gpus)))`: the ids as a Python list of strings. */
  function PyStrList(ids: seq<int>): string
  {
    "[" + JoinWith(seq(|ids|, k requires 0 <= k < |ids| => "'" + IntToString(ids[k]) + "'"), ", ") + "]"
  }

  /** The lines of `per_instance_template(i, gpus)`. */
  function InstanceLines(i: nat, gpus: seq<int>): (r: seq<string>)
    ensures |r| == 9
  {
    ["  " + ServiceName(i) + ":",
     "    <<: *vllm-server-base",
     "    deploy:",
     "      resources:",
     "        reservations:",
     "          devices:",
     "            - driver: nvidia",
     "              capabilities: [gpu]",
     "              device_ids: " + PyStrList(gpus)]
  }

  /** `per_instance_template(i, gpus)`, which ends with a line break. */
  function InstanceText(i: nat, gpus: seq<int>): string
  {
    Terminated(InstanceLines(i, gpus))
  }

  /** `"\n\n".join(...)` over `enumerate(gpu_groups)`. */
  function ServicesText(groups: seq<seq<int>>): string
  {
    JoinWith(seq(|groups|, i requires 0 <= i < |groups| => InstanceText(i, groups[i])), "\n\n")
  }

  function DependsItems(n: nat): (r: seq<string>)
    ensures |r| == n
  {
    seq(n, i requires 0 <= i < n => "- " + ServiceName(i))
  }

  /** `"\n      ".join(...)` over `range(len(gpu_groups))`. */
  function DependsText(n: nat): string
  {
    JoinWith(DependsItems(n), "\n      ")
  }

  /** The lines before the command list. */
  function BaseLines(tag: string): seq<string>
  {
    ["x-vllm-server-base: &vllm-server-base",
     "  image: vllm/vllm-openai:" + tag,
     "  ipc: host",
     "  command:",
     CommentLine]
  }

  function VolumeLines(hfHome: string): seq<string>
  {
    ["  volumes:", "    - " + hfHome + ":/root/.cache/huggingface:rw"]
  }

  const Markers := [NewVolume, EnvStarter, NewEnvironment]

  function LoadBalancerLines(port: string): seq<string>
  {
    ["  load-balancer:",
     "    image: nginx:latest",
     "    ports:",
     "      - \"" + port + ":80\"",
     "    volumes:",
     NginxVolumeLine,
     "    depends_on:"]
  }

  /**
   * The f-string of lines 92-115, one entry per line of its source; the
   * entries for the command list, the services and `depends_on` are
   * multi-line texts themselves.
   */
  function TemplatePieces(groups: seq<seq<int>>, tag: string, bag: Bag, hfHome: string, port: string): seq<string>
  {
    BaseLines(tag)
    + ["    - " + CommandText(bag)]
    + VolumeLines(hfHome) + Markers + ["", "services:"]
    + [ServicesText(groups)]
    + LoadBalancerLines(port)
    + ["      " + DependsText(|groups|), ""]
  }

  function TemplateText(groups: seq<seq<int>>, tag: string, bag: Bag, hfHome: string, port: string): string
  {
    JoinLines(TemplatePieces(groups, tag, bag, hfHome, port))
  }

  // ---------------------------------------------------------------------
  // The manifest, line by line

  /** The service blocks, separated by two empty lines and followed by one. */
  function ServiceLines(groups: seq<seq<int>>): seq<string>
  {
    Blocks(seq(|groups|, i requires 0 <= i < |groups| => InstanceLines(i, groups[i])))
  }

  /** The `depends_on` items, or a lone indentation when there are no servers. */
  function DependsLines(n: nat): (r: seq<string>)
    ensures |r| == if n == 0 then 1 else n
  {
    if n == 0 then ["      "] else Indented(DependsItems(n), "      ")
  }

  /** Everything before the credential lines. */
  function HeadLines(tag: string, bag: Bag, hfHome: string): seq<string>
  {
    BaseLines(tag) + CommandLines(bag) + VolumeLines(hfHome)
  }

  /** Everything after them. */
  function TailLines(groups: seq<seq<int>>, port: string): seq<string>
  {
    ["", "services:"] + ServiceLines(groups) + LoadBalancerLines(port) + DependsLines(|groups|) + [""]
  }

  function VolumeToken(token: string): string
  {
    "    - " + token + ":" + TokenMount
  }

  const EnvToken := "    - HF_TOKEN_PATH=" + TokenMount

  /** The token volume, the `environment:` header and the token variable; nothing without a token. */
  function CredentialLines(token: Option<string>): seq<string>
  {
    if token.Some? then [VolumeToken(token.value), EnvStarter, EnvToken] else []
  }

  /** The manifest the generator means to write, free of markers. */
  function ManifestLines(groups: seq<seq<int>>, tag: string, bag: Bag, hfHome: string, token: Option<string>, port: string): seq<string>
  {
    HeadLines(tag, bag, hfHome) + CredentialLines(token) + TailLines(groups, port)
  }

  /** The template, line by line: the manifest with the three marker lines where the credentials go. */
  function TemplateLines(groups: seq<seq<int>>, tag: string, bag: Bag, hfHome: string, port: string): seq<string>
  {
    HeadLines(tag, bag, hfHome) + Markers + TailLines(groups, port)
  }

  /** `if hf_token_path:`: an unset or empty `HF_TOKEN_PATH` gives no credentials. */
  function Token(hfTokenPath: Option<string>): (r: Option<string>)
    ensures r.Some? <==> hfTokenPath.Some? && hfTokenPath.value != ""
    ensures r.Some? ==> r == hfTokenPath
  {
    if hfTokenPath.Some? && hfTokenPath.value != "" then hfTokenPath else None
  }

  // ---------------------------------------------------------------------
  // From the template's pieces to its lines

  lemma ServicesTextLines(groups: seq<seq<int>>)
    ensures ServicesText(groups) == JoinLines(ServiceLines(groups))
  {
    var bs := seq(|groups|, i requires 0 <= i < |groups| => InstanceLines(i, groups[i]));
    BlocksText(bs);
    assert seq(|groups|, i requires 0 <= i < |groups| => InstanceText(i, groups[i]))
        == seq(|bs|, k requires 0 <= k < |bs| => Terminated(bs[k]));
  }

  lemma DependsTextLines(n: nat)
    ensures "      " + DependsText(n) == JoinLines(DependsLines(n))
  {
    if n > 0 {
      assert "\n" + "      " == "\n      ";
      JoinPrefixed(DependsItems(n), "      ");
    }
  }

  /** Three multi-line pieces, each flattened into its lines. */
  lemma {:induction false} FlattenPieces(a: seq<string>, m1: seq<string>, b: seq<string>, m2: seq<string>,
                                         c: seq<string>, m3: seq<string>, d: seq<string>)
    requires |m1| > 0 && |m2| > 0 && |m3| > 0
    ensures JoinLines(a + [JoinLines(m1)] + b + [JoinLines(m2)] + c + [JoinLines(m3)] + d)
         == JoinLines(a + m1 + b + m2 + c + m3 + d)
  {
    var j1, j2, j3 := JoinLines(m1), JoinLines(m2), JoinLines(m3);
    JoinFlatten(a + m1 + b + m2 + c, m3, d);
    JoinFlatten(a + m1 + b, m2, c + [j3] + d);
    JoinFlatten(a, m1, b + [j2] + c + [j3] + d);
    assert a + [j1] + b + [j2] + c + [j3] + d == a + [j1] + (b + [j2] + c + [j3] + d);
    assert a + m1 + (b + [j2] + c + [j3] + d) == (a + m1 + b) + [j2] + (c + [j3] + d);
    assert (a + m1 + b) + m2 + (c + [j3] + d) == (a + m1 + b + m2 + c) + [j3] + d;
  }

  /** The rendered f-string is the template's lines joined. */
  lemma TemplateTextLines(groups: seq<seq<int>>, tag: string, bag: Bag, hfHome: string, port: string)
    ensures TemplateText(groups, tag, bag, hfHome, port) == JoinLines(TemplateLines(groups, tag, bag, hfHome, port))
  {
    var cl, sl, dl := CommandLines(bag), ServiceLines(groups), DependsLines(|groups|);
    CommandTextLines(bag);
    ServicesTextLines(groups);
    DependsTextLines(|groups|);
    CommandLinesOrder(bag);
    ServiceLinesNonEmpty(groups);
    PiecesShape(groups, tag, bag, hfHome, port);
    LinesShape(groups, tag, bag, hfHome, port);
    FlattenPieces(BaseLines(tag), cl, MiddleLines(hfHome), sl, LoadBalancerLines(port), dl, [""]);
  }

  /** The fixed lines between the command list and the services. */
  function MiddleLines(hfHome: string): seq<string>
  {
    VolumeLines(hfHome) + Markers + ["", "services:"]
  }

  lemma ServiceLinesNonEmpty(groups: seq<seq<int>>)
    ensures |ServiceLines(groups)| > 0
  {
  }

  lemma PiecesShape(groups: seq<seq<int>>, tag: string, bag: Bag, hfHome: string, port: string)
    ensures TemplatePieces(groups, tag, bag, hfHome, port)
         == BaseLines(tag) + ["    - " + CommandText(bag)] + MiddleLines(hfHome) + [ServicesText(groups)]
            + LoadBalancerLines(port) + ["      " + DependsText(|groups|)] + [""]
  {
    var b, v, f := BaseLines(tag) + ["    - " + CommandText(bag)], VolumeLines(hfHome), ["", "services:"];
    var x := b + MiddleLines(hfHome) + [ServicesText(groups)] + LoadBalancerLines(port);
    var d := "      " + DependsText(|groups|);
    LinesAssoc(b, v + Markers, f);
    LinesAssoc(b, v, Markers);
    LinesAssoc(x, [d], [""]);
    assert [d] + [""] == [d, ""];
  }

  lemma LinesShape(groups: seq<seq<int>>, tag: string, bag: Bag, hfHome: string, port: string)
    ensures TemplateLines(groups, tag, bag, hfHome, port)
         == BaseLines(tag) + CommandLines(bag) + MiddleLines(hfHome) + ServiceLines(groups)
            + LoadBalancerLines(port) + DependsLines(|groups|) + [""]
  {
    var b, c, v := BaseLines(tag), CommandLines(bag), VolumeLines(hfHome);
    var sl, l, d := ServiceLines(groups), LoadBalancerLines(port), DependsLines(|groups|);
    var f: seq<string>, e: seq<string> := ["", "services:"], [""];
    var x := b + c + v + Markers;
    LinesAssoc(x, f + sl + l + d, e);
    LinesAssoc(x, f + sl + l, d);
    LinesAssoc(x, f + sl, l);
    LinesAssoc(x, f, sl);
    LinesAssoc(b + c, v + Markers, f);
    LinesAssoc(b + c, v, Markers);
  }


  // ---------------------------------------------------------------------
  // The replace chain

  /** A line the replace chain leaves alone: no marker inside it, not the `environment:` header. */
  predicate Inert(x: string)
  {
    && '\n' !in x
    && NoOccur(x, NewVolume) && NoOccur(x, NewEnvironment)
    && !StartsWith(x, EnvStarter)
  }

  predicate AllInert(ls: seq<string>)
  {
    forall k :: 0 <= k < |ls| ==> Inert(ls[k])
  }

  /** No line contains `p`. */
  predicate Avoid(ls: seq<string>, p: string)
  {
    forall k :: 0 <= k < |ls| ==> NoOccur(ls[k], p)
  }

  /** No line starts with `p`. */
  predicate NoStart(ls: seq<string>, p: string)
  {
    forall k :: 0 <= k < |ls| ==> !StartsWith(ls[k], p)
  }

  lemma AllInertConcat(a: seq<string>, b: seq<string>)
    requires AllInert(a) && AllInert(b)
    ensures AllInert(a + b)
  {
  }

  lemma AvoidConcat(a: seq<string>, b: seq<string>, p: string)
    requires Avoid(a, p) && Avoid(b, p)
    ensures Avoid(a + b, p)
  {
  }

  lemma NoStartConcat(a: seq<string>, b: seq<string>, p: string)
    requires NoStart(a, p) && NoStart(b, p)
    ensures NoStart(a + b, p)
  {
  }

  /** What inert lines give each step of the chain. */
  lemma InertFacts(ls: seq<string>)
    requires AllInert(ls)
    ensures SingleLines(ls)
    ensures Avoid(ls, NewVolume) && Avoid(ls, NewEnvironment)
    ensures NoStart(ls, NewVolume) && NoStart(ls, NewEnvironment) && NoStart(ls, EnvStarter)
  {
    forall k | 0 <= k < |ls|
      ensures !StartsWith(ls[k], NewVolume) && !StartsWith(ls[k], NewEnvironment)
    {
      NoOccurNotStart(ls[k], NewVolume);
      NoOccurNotStart(ls[k], NewEnvironment);
    }
  }

  lemma MarkersOneLine()
    ensures '\n' !in NewVolume && '\n' !in NewEnvironment && '\n' !in EnvStarter
  {
  }

  lemma HashInMarkers()
    ensures '#' in NewVolume && '#' in NewEnvironment
  {
  }

  lemma NInMarkers()
    ensures 'N' in NewVolume && 'N' in NewEnvironment
  {
  }

  lemma HashNotInStarter()
    ensures '#' !in EnvStarter
  {
  }

  lemma VolumeOnlyL()
    ensures 'L' in NewVolume && 'L' !in NewEnvironment
  {
  }

  lemma EnvironmentOnlyI()
    ensures 'I' in NewEnvironment && 'I' !in NewVolume
  {
  }

  lemma MarkerColumns()
    ensures |NewVolume| > 2 && |NewEnvironment| > 2 && |EnvStarter| > 2
    ensures NewVolume[2] == ' ' && NewEnvironment[2] == ' ' && EnvStarter[2] == 'e'
  {
  }

  /** How the three marker lines relate to each other. */
  lemma MarkerFacts()
    ensures '\n' !in NewVolume && '\n' !in NewEnvironment && '\n' !in EnvStarter
    ensures NoOccur(EnvStarter, NewVolume) && NoOccur(EnvStarter, NewEnvironment)
    ensures NoOccur(NewEnvironment, NewVolume) && NoOccur(NewVolume, NewEnvironment)
    ensures !StartsWith(NewVolume, EnvStarter) && !StartsWith(NewEnvironment, EnvStarter)
    ensures !StartsWith(EnvStarter, NewVolume) && !StartsWith(EnvStarter, NewEnvironment)
    ensures !StartsWith(NewEnvironment, NewVolume)
  {
    MarkersOneLine();
    HashInMarkers();
    HashNotInStarter();
    NoOccurByChar(EnvStarter, NewVolume, '#');
    NoOccurByChar(EnvStarter, NewEnvironment, '#');
    VolumeOnlyL();
    NoOccurByChar(NewEnvironment, NewVolume, 'L');
    EnvironmentOnlyI();
    NoOccurByChar(NewVolume, NewEnvironment, 'I');
    MarkerColumns();
    NotStartAt(NewVolume, EnvStarter, 2);
    NotStartAt(NewEnvironment, EnvStarter, 2);
    NoOccurNotStart(EnvStarter, NewVolume);
    NoOccurNotStart(EnvStarter, NewEnvironment);
    NoOccurNotStart(NewEnvironment, NewVolume);
  }

  /**
   * With a token: the token volume goes in before the volume marker, the
   * token variable before the environment marker, and both markers go.
   */
  lemma ChainWithToken(h: seq<string>, t: seq<string>, vt: string, et: string)
    requires |h| > 0 && |t| > 0
    requires AllInert(h) && AllInert(t) && Inert(vt) && Inert(et)
    ensures Replace(Replace(Replace(Replace(JoinLines(h + Markers + t),
                NewVolume, vt + "\n" + NewVolume),
                NewEnvironment, et + "\n" + NewEnvironment),
                "\n" + NewVolume, ""),
                "\n" + NewEnvironment, "")
         == JoinLines(h + [vt, EnvStarter, et] + t)
  {
    MarkerFacts();
    InertFacts(h);
    InertFacts(t);
    InertFacts([vt, et]);
    AddTokenVolume(h, t, vt);
    AddTokenVariable(h, t, vt, et);
    DropVolumeMarker(h, t, vt, et);
    DropEnvironmentMarker(h, t, vt, et);
  }

  lemma AddTokenVolume(h: seq<string>, t: seq<string>, vt: string)
    requires |h| > 0 && |t| > 0 && SingleLines(t)
    requires Avoid(h, NewVolume) && Avoid(t, NewVolume) && NoOccur(vt, NewVolume)
    ensures Replace(JoinLines(h + Markers + t), NewVolume, vt + "\n" + NewVolume)
         == JoinLines(h + [vt, NewVolume, EnvStarter, NewEnvironment] + t)
  {
    MarkerFacts();
    var nv, es, ne := NewVolume, EnvStarter, NewEnvironment;
    var b1 := [es, ne] + t;
    assert h + Markers + t == h + [nv] + b1;
    SingleLinesConcat([es, ne], t);
    AvoidConcat([es, ne], t, nv);
    JoinTwo(vt, nv);
    ReplaceWholeLine(h, nv, b1, [vt, nv]);
    assert h + [vt, nv] + b1 == h + [vt, nv, es, ne] + t;
  }

  lemma AddTokenVariable(h: seq<string>, t: seq<string>, vt: string, et: string)
    requires |h| > 0 && |t| > 0 && SingleLines(t)
    requires Avoid(h, NewEnvironment) && Avoid(t, NewEnvironment) && NoOccur(vt, NewEnvironment)
    ensures Replace(JoinLines(h + [vt, NewVolume, EnvStarter, NewEnvironment] + t), NewEnvironment, et + "\n" + NewEnvironment)
         == JoinLines(h + [vt, NewVolume, EnvStarter, et, NewEnvironment] + t)
  {
    MarkerFacts();
    var nv, es, ne := NewVolume, EnvStarter, NewEnvironment;
    var a2 := h + [vt, nv, es];
    assert h + [vt, nv, es, ne] + t == a2 + [ne] + t;
    AvoidConcat(h, [vt, nv, es], ne);
    JoinTwo(et, ne);
    ReplaceWholeLine(a2, ne, t, [et, ne]);
    assert a2 + [et, ne] + t == h + [vt, nv, es, et, ne] + t;
  }

  lemma DropVolumeMarker(h: seq<string>, t: seq<string>, vt: string, et: string)
    requires |h| > 0 && |t| > 0 && SingleLines(h) && SingleLines(t) && SingleLines([vt, et])
    requires NoStart(h, NewVolume) && NoStart(t, NewVolume) && NoStart([vt, et], NewVolume)
    ensures Replace(JoinLines(h + [vt, NewVolume, EnvStarter, et, NewEnvironment] + t), "\n" + NewVolume, "")
         == JoinLines(h + [vt, EnvStarter, et, NewEnvironment] + t)
  {
    MarkerFacts();
    var nv, es, ne := NewVolume, EnvStarter, NewEnvironment;
    assert [vt, et][0] == vt && [vt, et][1] == et;
    var a3, b3 := h + [vt], [es, et, ne] + t;
    assert h + [vt, nv, es, et, ne] + t == a3 + [nv] + b3;
    SingleLinesConcat(h, [vt]);
    SingleLinesConcat([es, et, ne], t);
    NoStartConcat(h, [vt], nv);
    NoStartConcat([es, et, ne], t, nv);
    RemoveWholeLine(a3, nv, b3);
    assert a3 + b3 == h + [vt, es, et, ne] + t;
  }

  lemma DropEnvironmentMarker(h: seq<string>, t: seq<string>, vt: string, et: string)
    requires |h| > 0 && |t| > 0 && SingleLines(h) && SingleLines(t) && SingleLines([vt, et])
    requires NoStart(h, NewEnvironment) && NoStart(t, NewEnvironment) && NoStart([vt, et], NewEnvironment)
    ensures Replace(JoinLines(h + [vt, EnvStarter, et, NewEnvironment] + t), "\n" + NewEnvironment, "")
         == JoinLines(h + [vt, EnvStarter, et] + t)
  {
    MarkerFacts();
    var es, ne := EnvStarter, NewEnvironment;
    assert [vt, et][0] == vt && [vt, et][1] == et;
    var a4 := h + [vt, es, et];
    assert h + [vt, es, et, ne] + t == a4 + [ne] + t;
    SingleLinesConcat(h, [vt, es, et]);
    NoStartConcat(h, [vt, es, et], ne);
    RemoveWholeLine(a4, ne, t);
  }

  /** Without a token: the `environment:` header goes, then both markers. */
  lemma ChainWithoutToken(h: seq<string>, t: seq<string>)
    requires |h| > 0 && |t| > 0
    requires AllInert(h) && AllInert(t)
    ensures Replace(Replace(Replace(JoinLines(h + Markers + t),
                "\n" + EnvStarter, ""),
                "\n" + NewVolume, ""),
                "\n" + NewEnvironment, "")
         == JoinLines(h + t)
  {
    MarkerFacts();
    InertFacts(h);
    InertFacts(t);
    var nv, es, ne := NewVolume, EnvStarter, NewEnvironment;
    // 1. the header
    var a1, b1 := h + [nv], [ne] + t;
    assert h + Markers + t == a1 + [es] + b1;
    SingleLinesConcat(h, [nv]);
    SingleLinesConcat([ne], t);
    NoStartConcat(h, [nv], es);
    NoStartConcat([ne], t, es);
    RemoveWholeLine(a1, es, b1);
    // 2. the volume marker
    assert a1 + b1 == h + [nv] + b1;
    NoStartConcat([ne], t, nv);
    RemoveWholeLine(h, nv, b1);
    // 3. the environment marker
    assert h + b1 == h + [ne] + t;
    RemoveWholeLine(h, ne, t);
  }

  // ---------------------------------------------------------------------
  // Which lines are inert

  /** A user-supplied text that stays on its line and carries no `#`. */
  predicate Plain(s: string)
  {
    '\n' !in s && '#' !in s
  }

  predicate PlainBag(bag: Bag)
  {
    forall j :: 0 <= j < |bag| ==> Plain(bag[j].0) && Plain(ValueText(bag[j].1))
  }

  /** A line free of a character both markers contain, and off the header at column `i`. */
  lemma InertLine(x: string, c: char, i: nat)
    requires '\n' !in x && c in NewVolume && c in NewEnvironment && c !in x
    requires i < |x| && i < |EnvStarter| && x[i] != EnvStarter[i]
    ensures Inert(x)
  {
    NoOccurByChar(x, NewVolume, c);
    NoOccurByChar(x, NewEnvironment, c);
    NotStartAt(x, EnvStarter, i);
  }

  lemma EmptyInert()
    ensures Inert("")
  {
    assert !StartsWith("", EnvStarter);
  }

  lemma StarterColumns()
    ensures EnvStarter[0] == ' ' && EnvStarter[2] == 'e'
  {
  }

  // The fixed text of the template, a few lines at a time.

  lemma BaseFixed()
    ensures Lacks("x-vllm-server-base: &vllm-server-base", '#', '\n')
    ensures Lacks("  image: vllm/vllm-openai:", '#', '\n')
    ensures Lacks("  ipc: host", '#', '\n') && Lacks("  command:", '#', '\n')
  {
  }

  lemma CommentFixed()
    ensures Lacks("    - --disable-log-requests", 'N', '\n')
    ensures Lacks("   # To save your eyes from the logs", 'N', '\n')
  {
  }

  lemma VolumeFixed()
    ensures Lacks("  volumes:", '#', '\n') && Lacks("    - ", '#', '\n')
    ensures Lacks(":/root/.cache/huggingface:rw", '#', '\n')
  {
  }

  lemma InstanceFixedTop()
    ensures Lacks("    <<: *vllm-server-base", '#', '\n') && Lacks("    deploy:", '#', '\n')
    ensures Lacks("      resources:", '#', '\n') && Lacks("        reservations:", '#', '\n')
    ensures Lacks("          devices:", '#', '\n')
  {
  }

  lemma InstanceFixedBottom()
    ensures Lacks("            - driver: nvidia", '#', '\n')
    ensures Lacks("              capabilities: [gpu]", '#', '\n')
    ensures Lacks("              device_ids: ", '#', '\n')
  {
  }

  lemma LoadBalancerFixed()
    ensures Lacks("  load-balancer:", '#', '\n') && Lacks("    image: nginx:latest", '#', '\n')
    ensures Lacks("    ports:", '#', '\n') && Lacks("      - \"", '#', '\n') && Lacks(":80\"", '#', '\n')
    ensures Lacks("    volumes:", '#', '\n') && Lacks("    depends_on:", '#', '\n')
  {
  }

  lemma NginxVolumeFixed()
    ensures Lacks("      - ./nginx.conf", '#', '\n') && Lacks(":/etc/nginx/nginx.conf:ro", '#', '\n')
  {
  }

  lemma TokenFixed()
    ensures Lacks("/root/.cache/hf_hub_token", '#', '\n') && Lacks("    - HF_TOKEN_PATH=", '#', '\n')
  {
  }

  lemma NameFixed()
    ensures Lacks("      ", '#', '\n') && Lacks("- ", '#', '\n') && Lacks(ServicePrefix, '#', '\n')
    ensures Lacks("services:", '#', '\n')
  {
  }

  lemma CommentFree()
    ensures 'N' !in CommentLine && '\n' !in CommentLine
  {
    CommentFixed();
    LacksNotIn("    - --disable-log-requests", 'N', '\n');
    LacksNotIn("   # To save your eyes from the logs", 'N', '\n');
  }

  lemma MountFree()
    ensures '#' !in TokenMount && '\n' !in TokenMount
  {
    TokenFixed();
    LacksNotIn(TokenMount, '#', '\n');
  }

  lemma NginxVolumeFree()
    ensures '#' !in NginxVolumeLine && '\n' !in NginxVolumeLine
  {
    NginxVolumeFixed();
    LacksNotIn("      - ./nginx.conf", '#', '\n');
    LacksNotIn(":/etc/nginx/nginx.conf:ro", '#', '\n');
  }

  lemma BaseInert(tag: string)
    requires Plain(tag)
    ensures AllInert(BaseLines(tag))
  {
    var ls := BaseLines(tag);
    BaseFixed();
    LacksNotIn("  image: vllm/vllm-openai:", '#', '\n');
    LacksNotIn("  ipc: host", '#', '\n');
    LacksNotIn("  command:", '#', '\n');
    BaseFirstInert();
    IndentedInert(ls[1]);
    IndentedInert(ls[2]);
    IndentedInert(ls[3]);
    CommentInert();
  }

  lemma BaseFirstInert()
    ensures Inert("x-vllm-server-base: &vllm-server-base")
  {
    BaseFixed();
    LacksNotIn("x-vllm-server-base: &vllm-server-base", '#', '\n');
    HashInMarkers();
    StarterColumns();
    InertLine("x-vllm-server-base: &vllm-server-base", '#', 0);
  }

  lemma CommentInert()
    ensures Inert(CommentLine)
  {
    NInMarkers();
    StarterColumns();
    CommentFree();
    InertLine(CommentLine, 'N', 2);
  }

  lemma CommandInert(bag: Bag)
    requires PlainBag(bag)
    ensures AllInert(CommandLines(bag))
  {
    HashInMarkers();
    StarterColumns();
    CommandLinesAvoid(bag, '#');
    CommandLinesAvoid(bag, '\n');
    CommandLinesItems(bag);
    var cl := CommandLines(bag);
    forall k | 0 <= k < |cl| ensures Inert(cl[k]) {
      assert cl[k][2] == cl[k][..6][2];
      InertLine(cl[k], '#', 2);
    }
  }

  lemma VolumeInert(hfHome: string)
    requires Plain(hfHome)
    ensures AllInert(VolumeLines(hfHome))
  {
    HashInMarkers();
    StarterColumns();
    VolumeFixed();
    LacksNotIn("  volumes:", '#', '\n');
    LacksNotIn("    - ", '#', '\n');
    LacksNotIn(":/root/.cache/huggingface:rw", '#', '\n');
    var ls := VolumeLines(hfHome);
    InertLine(ls[0], '#', 2);
    InertLine(ls[1], '#', 2);
  }

  lemma HeadInert(tag: string, bag: Bag, hfHome: string)
    requires Plain(tag) && PlainBag(bag) && Plain(hfHome)
    ensures AllInert(HeadLines(tag, bag, hfHome))
  {
    BaseInert(tag);
    CommandInert(bag);
    VolumeInert(hfHome);
    AllInertConcat(BaseLines(tag), CommandLines(bag));
    AllInertConcat(BaseLines(tag) + CommandLines(bag), VolumeLines(hfHome));
  }

  lemma NumeralPlain(n: int)
    ensures Plain(IntToString(n))
  {
    IntToStringChars(n);
  }

  lemma PyStrListPlain(ids: seq<int>)
    ensures Plain(PyStrList(ids))
  {
    var qs := seq(|ids|, k requires 0 <= k < |ids| => "'" + IntToString(ids[k]) + "'");
    forall k | 0 <= k < |ids| ensures Plain(qs[k]) {
      NumeralPlain(ids[k]);
    }
    JoinAvoids(qs, ", ", '#');
    JoinAvoids(qs, ", ", '\n');
  }

  /** A line without `#`, indented past the header's column. */
  lemma IndentedInert(x: string)
    requires '#' !in x && '\n' !in x && |x| > 2 && x[2] != 'e'
    ensures Inert(x)
  {
    HashInMarkers();
    StarterColumns();
    InertLine(x, '#', 2);
  }

  lemma InstanceInert(i: nat, gpus: seq<int>)
    ensures AllInert(InstanceLines(i, gpus))
  {
    var ls := InstanceLines(i, gpus);
    forall k | 0 <= k < |ls| ensures Inert(ls[k]) {
      if k == 0 {
        InstanceNameInert(i);
      } else if k < 6 {
        InstanceTopInert();
      } else if k < 8 {
        InstanceBottomInert();
      } else {
        InstanceIdsInert(gpus);
      }
    }
  }

  lemma InstanceNameInert(i: nat)
    ensures Inert("  " + ServiceName(i) + ":")
  {
    NumeralPlain(i);
    IndentedInert("  " + ServiceName(i) + ":");
  }

  lemma InstanceIdsInert(gpus: seq<int>)
    ensures Inert("              device_ids: " + PyStrList(gpus))
  {
    PyStrListPlain(gpus);
    InstanceFixedBottom();
    LacksNotIn("              device_ids: ", '#', '\n');
    IndentedInert("              device_ids: " + PyStrList(gpus));
  }

  lemma InstanceTopInert()
    ensures Inert("    <<: *vllm-server-base") && Inert("    deploy:")
    ensures Inert("      resources:") && Inert("        reservations:")
    ensures Inert("          devices:")
  {
    InstanceFixedTop();
    LacksNotIn("    <<: *vllm-server-base", '#', '\n');
    LacksNotIn("    deploy:", '#', '\n');
    LacksNotIn("      resources:", '#', '\n');
    LacksNotIn("        reservations:", '#', '\n');
    LacksNotIn("          devices:", '#', '\n');
    IndentedInert("    <<: *vllm-server-base");
    IndentedInert("    deploy:");
    IndentedInert("      resources:");
    IndentedInert("        reservations:");
    IndentedInert("          devices:");
  }

  lemma InstanceBottomInert()
    ensures Inert("            - driver: nvidia") && Inert("              capabilities: [gpu]")
  {
    InstanceFixedBottom();
    LacksNotIn("            - driver: nvidia", '#', '\n');
    LacksNotIn("              capabilities: [gpu]", '#', '\n');
    IndentedInert("            - driver: nvidia");
    IndentedInert("              capabilities: [gpu]");
  }

  lemma ServiceInert(groups: seq<seq<int>>)
    ensures AllInert(ServiceLines(groups))
  {
    var bs := seq(|groups|, i requires 0 <= i < |groups| => InstanceLines(i, groups[i]));
    BlocksLines(bs);
    EmptyInert();
    var sl := ServiceLines(groups);
    forall j | 0 <= j < |sl| ensures Inert(sl[j]) {
      if sl[j] != "" {
        var k, m :| 0 <= k < |bs| && 0 <= m < |bs[k]| && sl[j] == bs[k][m];
        InstanceInert(k, groups[k]);
      }
    }
  }

  lemma LoadBalancerInert(port: string)
    requires Plain(port)
    ensures AllInert(LoadBalancerLines(port))
  {
    var ls := LoadBalancerLines(port);
    forall k | 0 <= k < 7 ensures Inert(ls[k]) {
      if k == 3 {
        PortLineInert(port);
      } else if k == 5 {
        NginxVolumeInert();
      } else if k < 3 {
        LoadBalancerTopInert();
      } else {
        LoadBalancerBottomInert();
      }
    }
  }

  lemma LoadBalancerTopInert()
    ensures Inert("  load-balancer:") && Inert("    image: nginx:latest") && Inert("    ports:")
  {
    HashInMarkers();
    StarterColumns();
    LoadBalancerFixed();
    LacksNotIn("  load-balancer:", '#', '\n');
    LacksNotIn("    image: nginx:latest", '#', '\n');
    LacksNotIn("    ports:", '#', '\n');
    InertLine("  load-balancer:", '#', 2);
    InertLine("    image: nginx:latest", '#', 2);
    InertLine("    ports:", '#', 2);
  }

  lemma LoadBalancerBottomInert()
    ensures Inert("    volumes:") && Inert("    depends_on:")
  {
    HashInMarkers();
    StarterColumns();
    LoadBalancerFixed();
    LacksNotIn("    volumes:", '#', '\n');
    LacksNotIn("    depends_on:", '#', '\n');
    InertLine("    volumes:", '#', 2);
    InertLine("    depends_on:", '#', 2);
  }

  lemma NginxVolumeInert()
    ensures Inert(NginxVolumeLine)
  {
    HashInMarkers();
    StarterColumns();
    NginxVolumeFree();
    InertLine(NginxVolumeLine, '#', 2);
  }

  lemma PortLineInert(port: string)
    requires Plain(port)
    ensures Inert("      - \"" + port + ":80\"")
  {
    HashInMarkers();
    StarterColumns();
    LoadBalancerFixed();
    LacksNotIn("      - \"", '#', '\n');
    LacksNotIn(":80\"", '#', '\n');
    InertLine("      - \"" + port + ":80\"", '#', 2);
  }

  lemma DependsInert(n: nat)
    ensures AllInert(DependsLines(n))
  {
    var ls := DependsLines(n);
    if n == 0 {
      IndentationInert();
    } else {
      forall k | 0 <= k < |ls| ensures Inert(ls[k]) {
        assert ls[k] == "      " + ("- " + ServiceName(k));
        DependsLineInert(k);
      }
    }
  }

  lemma IndentationInert()
    ensures Inert("      ")
  {
    NameFixed();
    LacksNotIn("      ", '#', '\n');
    HashInMarkers();
    StarterColumns();
    InertLine("      ", '#', 2);
  }

  lemma DependsLineInert(k: nat)
    ensures Inert("      " + ("- " + ServiceName(k)))
  {
    NumeralPlain(k);
    NameFixed();
    LacksNotIn("      ", '#', '\n');
    LacksNotIn("- ", '#', '\n');
    LacksNotIn(ServicePrefix, '#', '\n');
    HashInMarkers();
    StarterColumns();
    InertLine("      " + ("- " + ServiceName(k)), '#', 2);
  }

  lemma TailInert(groups: seq<seq<int>>, port: string)
    requires Plain(port)
    ensures AllInert(TailLines(groups, port))
  {
    var front: seq<string> := ["", "services:"];
    FrontInert();
    ServiceInert(groups);
    LoadBalancerInert(port);
    DependsInert(|groups|);
    AllInertConcat(front, ServiceLines(groups));
    AllInertConcat(front + ServiceLines(groups), LoadBalancerLines(port));
    AllInertConcat(front + ServiceLines(groups) + LoadBalancerLines(port), DependsLines(|groups|));
    AllInertConcat(front + ServiceLines(groups) + LoadBalancerLines(port) + DependsLines(|groups|), [""]);
  }

  lemma FrontInert()
    ensures AllInert(["", "services:"])
  {
    EmptyInert();
    NameFixed();
    LacksNotIn("services:", '#', '\n');
    HashInMarkers();
    StarterColumns();
    InertLine("services:", '#', 0);
  }

  lemma VolumeTokenInert(token: string)
    requires Plain(token)
    ensures Inert(VolumeToken(token))
  {
    MountFree();
    VolumeFixed();
    LacksNotIn("    - ", '#', '\n');
    IndentedInert(VolumeToken(token));
  }

  lemma EnvTokenInert()
    ensures Inert(EnvToken)
  {
    MountFree();
    TokenFixed();
    LacksNotIn("    - HF_TOKEN_PATH=", '#', '\n');
    IndentedInert(EnvToken);
  }

  // ---------------------------------------------------------------------
  // make_docker_compose_yml

  /** `os.getenv("HF_HOME", "~/.cache/huggingface/")` */
  function HomeDir(hfHome: Option<string>): string
  {
    if hfHome.Some? then hfHome.value else DefaultHfHome
  }

  /** The inputs the manifest's line structure is stated for: no text brings its own line break or `#`. */
  predicate Clean(tag: string, bag: Bag, hfHome: Option<string>, hfTokenPath: Option<string>, port: string)
  {
    && Plain(tag) && PlainBag(bag) && Plain(HomeDir(hfHome)) && Plain(port)
    && (hfTokenPath.Some? ==> Plain(hfTokenPath.value))
  }

  lemma RenderedWithToken(groups: seq<seq<int>>, tag: string, bag: Bag, home: string, token: string, port: string)
    requires Plain(tag) && PlainBag(bag) && Plain(home) && Plain(port) && Plain(token)
    ensures Replace(Replace(Replace(Replace(TemplateText(groups, tag, bag, home, port),
                NewVolume, VolumeToken(token) + "\n" + NewVolume),
                NewEnvironment, EnvToken + "\n" + NewEnvironment),
                "\n" + NewVolume, ""),
                "\n" + NewEnvironment, "")
         == JoinLines(ManifestLines(groups, tag, bag, home, Some(token), port))
  {
    var h, t := HeadLines(tag, bag, home), TailLines(groups, port);
    TemplateTextLines(groups, tag, bag, home, port);
    HeadInert(tag, bag, home);
    TailInert(groups, port);
    VolumeTokenInert(token);
    EnvTokenInert();
    ChainWithToken(h, t, VolumeToken(token), EnvToken);
  }

  lemma RenderedWithoutToken(groups: seq<seq<int>>, tag: string, bag: Bag, home: string, port: string)
    requires Plain(tag) && PlainBag(bag) && Plain(home) && Plain(port)
    ensures Replace(Replace(Replace(TemplateText(groups, tag, bag, home, port),
                "\n" + EnvStarter, ""),
                "\n" + NewVolume, ""),
                "\n" + NewEnvironment, "")
         == JoinLines(ManifestLines(groups, tag, bag, home, None, port))
  {
    var h, t := HeadLines(tag, bag, home), TailLines(groups, port);
    TemplateTextLines(groups, tag, bag, home, port);
    HeadInert(tag, bag, home);
    TailInert(groups, port);
    ChainWithoutToken(h, t);
    NoCredentials(groups, tag, bag, home, port);
  }

  lemma NoCredentials(groups: seq<seq<int>>, tag: string, bag: Bag, home: string, port: string)
    ensures ManifestLines(groups, tag, bag, home, None, port) == HeadLines(tag, bag, home) + TailLines(groups, port)
  {
    var h, t := HeadLines(tag, bag, home), TailLines(groups, port);
    assert CredentialLines(None) == [];
    ConcatEmpty(h, t);
  }

  lemma ConcatEmpty(h: seq<string>, t: seq<string>)
    ensures h + [] + t == h + t
  {
  }

  /** For clean inputs, either replace chain of the source ends in the manifest of `ManifestLines`. */
  lemma Rendered(groups: seq<seq<int>>, tag: string, bag: Bag,
                 hfHome: Option<string>, hfTokenPath: Option<string>, port: string)
    ensures Clean(tag, bag, hfHome, hfTokenPath, port) && hfTokenPath.Some? && hfTokenPath.value != "" ==>
              Replace(Replace(Replace(Replace(TemplateText(groups, tag, bag, HomeDir(hfHome), port),
                NewVolume, VolumeToken(hfTokenPath.value) + "\n" + NewVolume),
                NewEnvironment, EnvToken + "\n" + NewEnvironment),
                "\n" + NewVolume, ""),
                "\n" + NewEnvironment, "")
              == JoinLines(ManifestLines(groups, tag, bag, HomeDir(hfHome), Token(hfTokenPath), port))
    ensures Clean(tag, bag, hfHome, hfTokenPath, port) && !(hfTokenPath.Some? && hfTokenPath.value != "") ==>
              Replace(Replace(Replace(TemplateText(groups, tag, bag, HomeDir(hfHome), port),
                "\n" + EnvStarter, ""),
                "\n" + NewVolume, ""),
                "\n" + NewEnvironment, "")
              == JoinLines(ManifestLines(groups, tag, bag, HomeDir(hfHome), Token(hfTokenPath), port))
  {
    if Clean(tag, bag, hfHome, hfTokenPath, port) {
      if hfTokenPath.Some? && hfTokenPath.value != "" {
        RenderedWithToken(groups, tag, bag, HomeDir(hfHome), hfTokenPath.value, port);
      } else {
        RenderedWithoutToken(groups, tag, bag, HomeDir(hfHome), port);
      }
    }
  }

  /**
   * `make_docker_compose_yml(gpu_groups, vllm_version, fire_kwargs)`, with
   * `HF_HOME`, `HF_TOKEN_PATH` and `VLLM_NOW_PORT` passed in. The template
   * is rendered, the credential lines are spliced in before the markers
   * when a token path is set, and the markers are removed; the result is
   * the manifest of `ManifestLines`.
   */
  method MakeDockerComposeYml(groups: seq<seq<int>>, tag: string, bag: Bag,
                              hfHome: Option<string>, hfTokenPath: Option<string>, port: string)
    returns (config: string)
    ensures Clean(tag, bag, hfHome, hfTokenPath, port) ==>
              config == JoinLines(ManifestLines(groups, tag, bag, HomeDir(hfHome), Token(hfTokenPath), port))
  {
    var home := HomeDir(hfHome);
    var envUsed := false;
    Rendered(groups, tag, bag, hfHome, hfTokenPath, port);

    config := TemplateText(groups, tag, bag, home, port);
    if hfTokenPath.Some? && hfTokenPath.value != "" {
      config := Replace(config, NewVolume, VolumeToken(hfTokenPath.value) + "\n" + NewVolume);
      config := Replace(config, NewEnvironment, EnvToken + "\n" + NewEnvironment);
      envUsed := true;
    }
    if !envUsed {
      config := Replace(config, "\n" + EnvStarter, "");
    }
    config := Replace(config, "\n" + NewVolume, "");
    config := Replace(config, "\n" + NewEnvironment, "");
  }

  // ---------------------------------------------------------------------
  // What the manifest says

  /** The manifest keeps no marker text. */
  lemma ManifestNoMarkers(groups: seq<seq<int>>, tag: string, bag: Bag, home: string, token: Option<string>, port: string)
    requires Plain(tag) && PlainBag(bag) && Plain(home) && Plain(port)
    requires token.Some? ==> Plain(token.value)
    ensures NoOccur(JoinLines(ManifestLines(groups, tag, bag, home, token, port)), NewVolume)
    ensures NoOccur(JoinLines(ManifestLines(groups, tag, bag, home, token, port)), NewEnvironment)
  {
    HeadMarkerFree(tag, bag, home);
    CredentialMarkerFree(token);
    TailMarkerFree(groups, port);
    JoinMarkerFree(HeadLines(tag, bag, home), CredentialLines(token), TailLines(groups, port));
  }

  /** One-line pieces free of marker text join into a text free of it. */
  lemma JoinMarkerFree(h: seq<string>, c: seq<string>, t: seq<string>)
    requires |h| > 0
    requires SingleLines(h) && Avoid(h, NewVolume) && Avoid(h, NewEnvironment)
    requires SingleLines(c) && Avoid(c, NewVolume) && Avoid(c, NewEnvironment)
    requires SingleLines(t) && Avoid(t, NewVolume) && Avoid(t, NewEnvironment)
    ensures NoOccur(JoinLines(h + c + t), NewVolume) && NoOccur(JoinLines(h + c + t), NewEnvironment)
  {
    SingleLinesConcat(h, c);
    SingleLinesConcat(h + c, t);
    AvoidConcat(h, c, NewVolume);
    AvoidConcat(h + c, t, NewVolume);
    AvoidConcat(h, c, NewEnvironment);
    AvoidConcat(h + c, t, NewEnvironment);
    MarkerFacts();
    NoOccurJoin(h + c + t, NewVolume);
    NoOccurJoin(h + c + t, NewEnvironment);
  }

  lemma HeadMarkerFree(tag: string, bag: Bag, home: string)
    requires Plain(tag) && PlainBag(bag) && Plain(home)
    ensures var h := HeadLines(tag, bag, home);
            |h| > 0 && SingleLines(h) && Avoid(h, NewVolume) && Avoid(h, NewEnvironment)
  {
    HeadInert(tag, bag, home);
    InertFacts(HeadLines(tag, bag, home));
  }

  lemma TailMarkerFree(groups: seq<seq<int>>, port: string)
    requires Plain(port)
    ensures var t := TailLines(groups, port);
            SingleLines(t) && Avoid(t, NewVolume) && Avoid(t, NewEnvironment)
  {
    TailInert(groups, port);
    InertFacts(TailLines(groups, port));
  }

  lemma CredentialMarkerFree(token: Option<string>)
    requires token.Some? ==> Plain(token.value)
    ensures var c := CredentialLines(token);
            SingleLines(c) && Avoid(c, NewVolume) && Avoid(c, NewEnvironment)
  {
    if token.Some? {
      VolumeTokenInert(token.value);
      EnvTokenInert();
    }
  }

  /** The `environment:` section is there exactly when a token is. */
  lemma EnvironmentIffToken(groups: seq<seq<int>>, tag: string, bag: Bag, home: string, token: Option<string>, port: string)
    requires Plain(tag) && PlainBag(bag) && Plain(home) && Plain(port)
    ensures var m := ManifestLines(groups, tag, bag, home, token, port);
            (exists k :: 0 <= k < |m| && m[k] == EnvStarter) <==> token.Some?
  {
    var h, t := HeadLines(tag, bag, home), TailLines(groups, port);
    var m := ManifestLines(groups, tag, bag, home, token, port);
    if token.Some? {
      assert m[|h| + 1] == EnvStarter;
    } else {
      HeadInert(tag, bag, home);
      TailInert(groups, port);
      InertFacts(h);
      InertFacts(t);
      NoStartConcat(h, t, EnvStarter);
      NoCredentials(groups, tag, bag, home, port);
      assert StartsWith(EnvStarter, EnvStarter);
    }
  }

  /**
   * The command list: `--disable-log-requests` first, then each value flag
   * at its rank among the value entries, then each toggle at its rank among
   * the bool entries, one item per line. Stated for entry `j` of the bag.
   */
  lemma ManifestCommand(groups: seq<seq<int>>, tag: string, bag: Bag, home: string, token: Option<string>, port: string, j: nat)
    requires j < |bag|
    ensures var m := ManifestLines(groups, tag, bag, home, token, port);
            && |m| > 4 + |CommandLines(bag)|
            && m[3] == "  command:" && m[4] == CommentLine
            && (!bag[j].1.Bool? ==>
                  5 + Rank(bag, j, false) < |m| && m[5 + Rank(bag, j, false)] == Item(ValueFlag(bag[j])))
            && (bag[j].1.Bool? ==>
                  5 + ValueLineCount(bag) + Rank(bag, j, true) < |m| &&
                  m[5 + ValueLineCount(bag) + Rank(bag, j, true)] == Item(ToggleFlag(bag[j])))
  {
    var b := BaseLines(tag);
    var rest := VolumeLines(home) + CredentialLines(token) + TailLines(groups, port);
    var m := ManifestLines(groups, tag, bag, home, token, port);
    ManifestSplit(groups, tag, bag, home, token, port);
    assert |b| == 5 && m[3] == b[3] && m[4] == b[4];
    if bag[j].1.Bool? {
      TogglePlaced(b, rest, bag, j);
    } else {
      ValuePlaced(b, rest, bag, j);
    }
  }

  /** A value entry's item sits behind five lines at its rank. */
  lemma ValuePlaced(b: seq<string>, rest: seq<string>, bag: Bag, j: nat)
    requires |b| == 5 && j < |bag| && !bag[j].1.Bool?
    ensures 5 + Rank(bag, j, false) < |b + CommandLines(bag) + rest|
    ensures (b + CommandLines(bag) + rest)[5 + Rank(bag, j, false)] == Item(ValueFlag(bag[j]))
  {
    var r := Rank(bag, j, false);
    assert r < |CommandLines(bag)| && CommandLines(bag)[r] == Item(ValueFlag(bag[j])) by {
      ValueItemsPlaced(bag);
    }
    LineAt(b, CommandLines(bag), rest, 5 + r, r);
  }

  /** A toggle's item sits behind five lines and the value lines, at its rank. */
  lemma TogglePlaced(b: seq<string>, rest: seq<string>, bag: Bag, j: nat)
    requires |b| == 5 && j < |bag| && bag[j].1.Bool?
    ensures 5 + ValueLineCount(bag) + Rank(bag, j, true) < |b + CommandLines(bag) + rest|
    ensures (b + CommandLines(bag) + rest)[5 + ValueLineCount(bag) + Rank(bag, j, true)] == Item(ToggleFlag(bag[j]))
  {
    var r := ValueLineCount(bag) + Rank(bag, j, true);
    assert r < |CommandLines(bag)| && CommandLines(bag)[r] == Item(ToggleFlag(bag[j])) by {
      ToggleItemsPlaced(bag);
    }
    LineAt(b, CommandLines(bag), rest, 5 + ValueLineCount(bag) + Rank(bag, j, true), r);
  }

  /** The manifest's second line names the image and its tag. */
  lemma ManifestImageLine(groups: seq<seq<int>>, tag: string, bag: Bag, home: string, token: Option<string>, port: string)
    ensures |ManifestLines(groups, tag, bag, home, token, port)| > 1
    ensures ManifestLines(groups, tag, bag, home, token, port)[1] == "  image: vllm/vllm-openai:" + tag
  {
    var b := BaseLines(tag);
    var rest := VolumeLines(home) + CredentialLines(token) + TailLines(groups, port);
    ManifestSplit(groups, tag, bag, home, token, port);
    assert b[1] == "  image: vllm/vllm-openai:" + tag;
    FrontLine(b, CommandLines(bag), rest, 1);
  }

  lemma FrontLine(b: seq<string>, cl: seq<string>, rest: seq<string>, i: nat)
    requires i < |b|
    ensures i < |b + cl + rest| && (b + cl + rest)[i] == b[i]
  {
  }

  lemma ManifestSplit(groups: seq<seq<int>>, tag: string, bag: Bag, home: string, token: Option<string>, port: string)
    ensures ManifestLines(groups, tag, bag, home, token, port)
         == BaseLines(tag) + CommandLines(bag) + (VolumeLines(home) + CredentialLines(token) + TailLines(groups, port))
  {
    var b, cl, v, c, t := BaseLines(tag), CommandLines(bag), VolumeLines(home), CredentialLines(token), TailLines(groups, port);
    SeqAssoc(b + cl, v, c, t);
  }

  lemma SeqAssoc(x: seq<string>, v: seq<string>, c: seq<string>, t: seq<string>)
    ensures x + v + c + t == x + (v + c + t)
  {
  }

  /** Line `k` of `cl` is line `i` of `b + cl + rest`. */
  lemma LineAt(b: seq<string>, cl: seq<string>, rest: seq<string>, i: nat, k: nat)
    requires k < |cl| && i == |b| + k
    ensures i < |b + cl + rest| && (b + cl + rest)[i] == cl[k]
  {
  }

  const HeaderPrefix := "  " + ServicePrefix
  const DevicePrefix := "              device_ids: "
  const DependsPrefix := "      - " + ServicePrefix

  lemma HeaderColumns()
    ensures |HeaderPrefix| > 2 && HeaderPrefix[2] == 'v'
  {
  }

  lemma DeviceColumns()
    ensures |DevicePrefix| == 26
    ensures forall k :: 0 <= k < 14 ==> DevicePrefix[k] == ' '
    ensures DevicePrefix[14] == 'd'
  {
  }

  /** Lines of which only the first is framed yield its middle. */
  lemma PickFirst(ls: seq<string>, pre: string, m: string, suf: string)
    requires |ls| > 0 && ls[0] == pre + m + suf && NoStart(ls[1..], pre)
    ensures Pick(ls, pre, suf) == [m]
  {
    PickNone(ls[1..], pre, suf);
    PickOne(pre, m, suf);
    assert ls == [ls[0]] + ls[1..];
    PickConcat([ls[0]], ls[1..], pre, suf);
  }

  /** Lines of which only the last is framed yield its middle. */
  lemma PickLast(ls: seq<string>, pre: string, m: string, suf: string)
    requires |ls| > 0 && ls[|ls| - 1] == pre + m + suf && NoStart(ls[..|ls| - 1], pre)
    ensures Pick(ls, pre, suf) == [m]
  {
    var front := ls[..|ls| - 1];
    PickNone(front, pre, suf);
    PickOne(pre, m, suf);
    assert ls == front + [ls[|ls| - 1]];
    PickConcat(front, [ls[|ls| - 1]], pre, suf);
  }

  lemma InstanceRestNoHeader(i: nat, gpus: seq<int>)
    ensures NoStart(InstanceLines(i, gpus)[1..], HeaderPrefix)
  {
    var ls := InstanceLines(i, gpus);
    forall k | 0 <= k < 8 ensures !StartsWith(ls[1..][k], HeaderPrefix) {
      assert ls[1..][k] == ls[k + 1];
      if k < 3 {
        FixedNoHeaderTop();
      } else if k < 7 {
        FixedNoHeaderBottom();
      } else {
        HeaderColumns();
        NotStartAt(ls[8], HeaderPrefix, 2);
      }
    }
  }

  lemma FixedNoHeaderTop()
    ensures !StartsWith("    <<: *vllm-server-base", HeaderPrefix)
    ensures !StartsWith("    deploy:", HeaderPrefix)
    ensures !StartsWith("      resources:", HeaderPrefix)
  {
    HeaderColumns();
    NotStartAt("    <<: *vllm-server-base", HeaderPrefix, 2);
    NotStartAt("    deploy:", HeaderPrefix, 2);
    NotStartAt("      resources:", HeaderPrefix, 2);
  }

  lemma FixedNoHeaderBottom()
    ensures !StartsWith("        reservations:", HeaderPrefix)
    ensures !StartsWith("          devices:", HeaderPrefix)
    ensures !StartsWith("            - driver: nvidia", HeaderPrefix)
    ensures !StartsWith("              capabilities: [gpu]", HeaderPrefix)
  {
    HeaderColumns();
    NotStartAt("        reservations:", HeaderPrefix, 2);
    NotStartAt("          devices:", HeaderPrefix, 2);
    NotStartAt("            - driver: nvidia", HeaderPrefix, 2);
    NotStartAt("              capabilities: [gpu]", HeaderPrefix, 2);
  }

  /** The header of block `i` names server `i`; no other line of the block looks like a header. */
  lemma InstanceHeaderPick(i: nat, gpus: seq<int>)
    ensures Pick(InstanceLines(i, gpus), HeaderPrefix, ":") == [IntToString(i)]
  {
    InstanceRestNoHeader(i, gpus);
    PickFirst(InstanceLines(i, gpus), HeaderPrefix, IntToString(i), ":");
  }

  lemma InstanceFrontNoDevices(i: nat, gpus: seq<int>)
    ensures NoStart(InstanceLines(i, gpus)[..8], DevicePrefix)
  {
    var ls := InstanceLines(i, gpus);
    forall k | 0 <= k < 8 ensures !StartsWith(ls[..8][k], DevicePrefix) {
      assert ls[..8][k] == ls[k];
      if k == 0 {
        DeviceColumns();
        NotStartAt(ls[0], DevicePrefix, 2);
      } else if k < 4 {
        FixedNoDevicesTop();
      } else {
        FixedNoDevicesBottom();
      }
    }
  }

  lemma FixedNoDevicesTop()
    ensures !StartsWith("    <<: *vllm-server-base", DevicePrefix)
    ensures !StartsWith("    deploy:", DevicePrefix)
    ensures !StartsWith("      resources:", DevicePrefix)
  {
    DeviceColumns();
    NotStartAt("    <<: *vllm-server-base", DevicePrefix, 4);
    NotStartAt("    deploy:", DevicePrefix, 4);
    NotStartAt("      resources:", DevicePrefix, 6);
  }

  lemma FixedNoDevicesBottom()
    ensures !StartsWith("        reservations:", DevicePrefix)
    ensures !StartsWith("          devices:", DevicePrefix)
    ensures !StartsWith("            - driver: nvidia", DevicePrefix)
    ensures !StartsWith("              capabilities: [gpu]", DevicePrefix)
  {
    DeviceColumns();
    NotStartAt("        reservations:", DevicePrefix, 8);
    NotStartAt("          devices:", DevicePrefix, 10);
    NotStartAt("            - driver: nvidia", DevicePrefix, 12);
    NotStartAt("              capabilities: [gpu]", DevicePrefix, 14);
  }

  /** The last line of a block carries its device list; no other line of the block does. */
  lemma InstanceDevicePick(i: nat, gpus: seq<int>)
    ensures Pick(InstanceLines(i, gpus), DevicePrefix, "") == [PyStrList(gpus)]
  {
    InstanceFrontNoDevices(i, gpus);
    PickLast(InstanceLines(i, gpus), DevicePrefix, PyStrList(gpus), "");
  }

  function Blocked(groups: seq<seq<int>>): (bs: seq<seq<string>>)
    ensures |bs| == |groups|
    ensures forall i :: 0 <= i < |groups| ==> bs[i] == InstanceLines(i, groups[i])
  {
    seq(|groups|, i requires 0 <= i < |groups| => InstanceLines(i, groups[i]))
  }

  /** One service per group, named `vllm-server-0`, `vllm-server-1`, ... in order. */
  lemma ServiceNames(groups: seq<seq<int>>)
    ensures Pick(ServiceLines(groups), HeaderPrefix, ":") == Indices(|groups|)
  {
    var bs := Blocked(groups);
    assert ServiceLines(groups) == Blocks(bs);
    forall k | 0 <= k < |bs| ensures Pick(bs[k], HeaderPrefix, ":") == [Indices(|groups|)[k]] {
      InstanceHeaderPick(k, groups[k]);
    }
    PickBlocks(bs, Indices(|groups|), HeaderPrefix, ":");
  }

  /** `str(list(map(str, ...)))` of each group, in group order. */
  function DeviceLists(groups: seq<seq<int>>): (r: seq<string>)
    ensures |r| == |groups|
  {
    seq(|groups|, i requires 0 <= i < |groups| => PyStrList(groups[i]))
  }

  /** Service `i` reserves exactly the devices of group `i`. */
  lemma ServiceDevices(groups: seq<seq<int>>)
    ensures Pick(ServiceLines(groups), DevicePrefix, "") == DeviceLists(groups)
  {
    var bs := Blocked(groups);
    assert ServiceLines(groups) == Blocks(bs);
    forall k | 0 <= k < |bs| ensures Pick(bs[k], DevicePrefix, "") == [DeviceLists(groups)[k]] {
      InstanceDevicePick(k, groups[k]);
    }
    PickBlocks(bs, DeviceLists(groups), DevicePrefix, "");
  }

  /** The load balancer depends on every server, in order. */
  lemma DependsNames(n: nat)
    ensures Pick(DependsLines(n), DependsPrefix, "") == Indices(n)
  {
    if n > 0 {
      var ls := DependsLines(n);
      forall i | 0 <= i < n ensures ls[i] == Framing(Indices(n), DependsPrefix, "")[i] {
        assert ls[i] == "      " + ("- " + (ServicePrefix + IntToString(i)));
      }
      assert ls == Framing(Indices(n), DependsPrefix, "");
      PickFraming(Indices(n), DependsPrefix, "");
    } else {
      assert !StartsWith("      ", DependsPrefix);
    }
  }
}
