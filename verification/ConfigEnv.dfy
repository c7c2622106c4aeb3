/** The tenant's config.env: the printer, the parser, and the credentials that travel through them. */
module ConfigEnv {
  import opened Text

  type Config = map<string, string>

  // ---------------------------------------------------------------- the parser

  function DropCR(s: string): string {
    if s != "" && s[|s| - 1] == '\r' then s[..|s| - 1] else s
  }

  /** bufio.ScanLines. */
  function Lines(s: string): seq<string>
    decreases |s|
  {
    var i := IndexOf(s, '\n');
    if s == "" then []
    else if i == |s| then [DropCR(s)]
    else [DropCR(s[..i])] + Lines(s[i + 1..])
  }

  datatype Entry = Skip | Malformed | KeyValue(key: string, value: string)

  function TrimExport(s: string): string {
    if "export" <= s then s[6..] else s
  }

  predicate Quoted(v: string) {
    |v| >= 2 && (v[0] == '"' || v[0] == '\'') && v[|v| - 1] == v[0]
  }

  function Unquote(v: string): string {
    if Quoted(v) then v[1..|v| - 1] else v
  }

  /** parsEnvEntry. */
  function ParseEntry(line: string): Entry {
    var entry := TrimSpace(line);
    if entry == "" then Skip
    else
      var body := TrimSpace(TrimExport(entry));
      var i := IndexOf(body, '=');
      if i == |body| then Malformed
      else
        var key := body[..i];
        if "#" <= key then Skip else KeyValue(key, Unquote(body[i + 1..]))
  }

  /** The second name under which the parser stores the value of some keys. */
  function Alias(key: string): Option<string> {
    if key == "MINIO_ROOT_USER" || key == "MINIO_ACCESS_KEY" then Some("accesskey")
    else if key == "MINIO_ROOT_PASSWORD" || key == "MINIO_SECRET_KEY" then Some("secretkey")
    else None
  }

  function Put(config: Config, key: string, value: string): Config {
    match Alias(key)
    case None => config[key := value]
    case Some(alias) => config[key := value][alias := value]
  }

  function Step(config: Config, line: string): Config {
    match ParseEntry(line)
    case KeyValue(key, value) => Put(config, key, value)
    case _ => config
  }

  function FoldLines(lines: seq<string>, config: Config): Config {
    if lines == [] then config else FoldLines(lines[1..], Step(config, lines[0]))
  }

  function Parsed(text: string): Config {
    FoldLines(Lines(text), map[])
  }

  /** ParseRawConfiguration: the scan loop. */
  method ParseRawConfiguration(configuration: Option<string>) returns (config: Config)
    ensures config == if configuration.None? then map[] else Parsed(configuration.value)
  {
    hide ParseEntry, DropCR, Lines, FoldLines;
    config := map[];
    if configuration.Some? {
      var rest := configuration.value;
      while rest != ""
        invariant FoldLines(Lines(rest), config) == Parsed(configuration.value)
        decreases |rest|
      {
        var i := IndexOf(rest, '\n');
        var line := DropCR(rest[..i]);
        FoldOneLine(rest, config);
        rest := if i < |rest| then rest[i + 1..] else "";
        ghost var before := config;
        var entry := ParseEntry(line);
        if entry.KeyValue? {
          config := config[entry.key := entry.value];
          if entry.key == "MINIO_ROOT_USER" || entry.key == "MINIO_ACCESS_KEY" {
            config := config["accesskey" := config[entry.key]];
          } else if entry.key == "MINIO_ROOT_PASSWORD" || entry.key == "MINIO_SECRET_KEY" {
            config := config["secretkey" := config[entry.key]];
          }
        }
        assert config == Step(before, line);
      }
      NothingLeft(config);
    }
  }

  lemma LinesFrom(s: string)
    requires s != ""
    ensures var i := IndexOf(s, '\n');
            && Lines(s)[0] == DropCR(s[..i])
            && Lines(s)[1..] == Lines(if i < |s| then s[i + 1..] else "")
  {
    hide DropCR;
    if IndexOf(s, '\n') == |s| {
      assert s[..|s|] == s;
    }
  }

  lemma FoldOneLine(s: string, config: Config)
    requires s != ""
    ensures var i := IndexOf(s, '\n');
            FoldLines(Lines(s), config) == FoldLines(Lines(if i < |s| then s[i + 1..] else ""), Step(config, DropCR(s[..i])))
  {
    LinesFrom(s);
    hide Step, DropCR, Lines;
  }

  // ---------------------------------------------------------------- the printer

  function Printed(key: string, value: string): string {
    "export " + key + "=\"" + value + "\"" + "\n"
  }

  /** One way a loop over a map can go. */
  ghost predicate IsOrder(cfg: Config, order: seq<string>) {
    && (forall k :: k in cfg <==> k in order)
    && Distinct(order)
  }

  ghost function Render(cfg: Config, order: seq<string>): string
    requires forall k :: k in order ==> k in cfg
  {
    if order == [] then ""
    else Render(cfg, order[..|order| - 1]) + Printed(order[|order| - 1], cfg[order[|order| - 1]])
  }

  /** GenerateTenantConfigurationFile: any order of the map. */
  method GenerateTenantConfigurationFile(configuration: Config) returns (raw: string)
    ensures exists order :: IsOrder(configuration, order) && raw == Render(configuration, order)
  {
    raw := "";
    var left := configuration.Keys;
    ghost var order: seq<string> := [];
    while left != {}
      invariant left <= configuration.Keys
      invariant forall k :: k in order <==> k in configuration && k !in left
      invariant Distinct(order)
      invariant raw == Render(configuration, order)
      decreases left
    {
      var key :| key in left;
      raw := raw + ("export " + key + "=\"" + configuration[key] + "\"" + "\n");
      left := left - {key};
      ghost var was := order;
      order := order + [key];
      assert order[..|order| - 1] == was;
    }
    assert IsOrder(configuration, order);
  }

  // ---------------------------------------------------------------- lines

  lemma StepFrom(config: Config, line: string)
    ensures Step(config, line) == config + Step(map[], line)
  {
    hide ParseEntry;
  }

  lemma {:induction false} FoldFrom(lines: seq<string>, config: Config)
    ensures FoldLines(lines, config) == config + FoldLines(lines, map[])
  {
    hide Step;
    if lines != [] {
      FoldFrom(lines[1..], Step(config, lines[0]));
      FoldFrom(lines[1..], Step(map[], lines[0]));
      StepFrom(config, lines[0]);
    }
  }

  lemma EmptyLineSaysNothing(config: Config)
    ensures Step(config, DropCR("")) == config
  {
  }

  /** Cutting a text at a newline cuts its lines, but for an empty line that says nothing. */
  lemma {:induction false} FoldOfJoined(a: string, b: string, config: Config)
    ensures FoldLines(Lines(a + "\n" + b), config) == FoldLines(Lines(b), FoldLines(Lines(a), config))
    decreases |a|
  {
    hide Step, DropCR, Lines, FoldLines;
    var s := a + "\n" + b;
    var i := IndexOf(a, '\n');
    FoldOneLine(s, config);
    if i == |a| {
      assert '\n' !in a;
      CutAtFirst(a, '\n', b);
      if a == "" {
        EmptyLineSaysNothing(config);
        NothingLeft(config);
      } else {
        FoldOneLine(a, config);
        assert a[..i] == a;
        NothingLeft(Step(config, DropCR(a)));
      }
    } else {
      var rest := a[i + 1..];
      assert s == a[..i] + "\n" + (rest + "\n" + b);
      CutAtFirst(a[..i], '\n', rest + "\n" + b);
      FoldOneLine(a, config);
      FoldOfJoined(rest, b, Step(config, DropCR(a[..i])));
    }
  }

  /** Parsing is a homomorphism: the second text overwrites the first, aliases included. */
  lemma ParsedOfJoined(a: string, b: string)
    ensures Parsed(a + "\n" + b) == Parsed(a) + Parsed(b)
  {
    FoldOfJoined(a, b, map[]);
    FoldFrom(Lines(b), Parsed(a));
  }

  // ---------------------------------------------------------------- what a parse can hold at all

  predicate GoodKey(k: string) {
    && '=' !in k && '\n' !in k
    && (k != "" ==> !IsSpace(k[0]) && k[0] != '#')
  }

  ghost predicate Printable(cfg: Config) {
    forall k :: k in cfg ==> GoodKey(k) && '\n' !in cfg[k]
  }

  lemma EntryIsPrintable(line: string)
    requires '\n' !in line
    ensures var e := ParseEntry(line); e.KeyValue? ==> GoodKey(e.key) && '\n' !in e.value
  {
    hide TrimSpace, IsSpace, TrimExport, Unquote;
    var entry := TrimSpace(line);
    CutsKeep(entry);
    var body := TrimSpace(TrimExport(entry));
    assert '\n' !in entry && '\n' !in body;
    var i := IndexOf(body, '=');
    if i < |body| {
      assert '=' !in body[..i] && '\n' !in body[i + 1..];
      CutsKeep(body[i + 1..]);
    }
  }

  lemma CutsKeep(s: string)
    requires '\n' !in s
    ensures '\n' !in TrimExport(s) && '\n' !in Unquote(s)
  {
  }

  lemma StepIsPrintable(config: Config, line: string)
    requires Printable(config) && '\n' !in line
    ensures Printable(Step(config, DropCR(line)))
  {
    assert '\n' !in DropCR(line);
    hide *;
    EntryIsPrintable(DropCR(line));
    EntryKeepsPrintable(config, DropCR(line));
  }

  lemma EntryKeepsPrintable(config: Config, line: string)
    requires Printable(config)
    requires var e := ParseEntry(line); e.KeyValue? ==> GoodKey(e.key) && '\n' !in e.value
    ensures Printable(Step(config, line))
  {
    hide ParseEntry, Put, GoodKey, Printable;
    var e := ParseEntry(line);
    if e.KeyValue? {
      PutIsPrintable(config, e.key, e.value);
    }
  }

  lemma PutIsPrintable(config: Config, k: string, v: string)
    requires Printable(config) && GoodKey(k) && '\n' !in v
    ensures Printable(Put(config, k, v))
  {
    assert GoodKey("accesskey") && GoodKey("secretkey");
    hide GoodKey;
  }

  lemma {:induction false} FoldIsPrintable(text: string, config: Config)
    requires Printable(config)
    ensures Printable(FoldLines(Lines(text), config))
    decreases |text|
  {
    hide Step, DropCR, Printable, Lines, FoldLines;
    if text == "" {
      NothingLeft(config);
    } else {
      var i := IndexOf(text, '\n');
      assert '\n' !in text[..i];
      StepIsPrintable(config, text[..i]);
      FoldOneLine(text, config);
      FoldIsPrintable(if i < |text| then text[i + 1..] else "", Step(config, DropCR(text[..i])));
    }
  }

  /** Whatever the text, no key the parser stores has '=', a newline, leading space or a leading '#',
      and no value has a newline. */
  lemma ParsedIsPrintable(text: string)
    ensures Printable(Parsed(text))
  {
    FoldIsPrintable(text, map[]);
  }

  // ---------------------------------------------------------------- one line back and forth

  lemma {:induction false} TrimRightKeepsHead(p: string, s: string)
    requires p != "" && !IsSpace(p[|p| - 1])
    ensures TrimRight(p + s) == p + TrimRight(s)
  {
    if s != "" && IsSpace(s[|s| - 1]) {
      TrimRightKeepsHead(p, s[..|s| - 1]);
      assert (p + s)[..|p + s| - 1] == p + s[..|s| - 1];
    } else {
      assert s == "" ==> p + s == p;
    }
  }

  lemma TrimSpaceOfLine(p: string, s: string)
    requires p != "" && !IsSpace(p[0]) && !IsSpace(p[|p| - 1])
    ensures TrimSpace(p + s) == p + TrimRight(s)
  {
    assert TrimLeft(p + s) == p + s;
    TrimRightKeepsHead(p, s);
  }

  lemma EntryOfBody(line: string, k: string, t: string)
    requires GoodKey(k) && TrimSpace(line) != "" && TrimSpace(TrimExport(TrimSpace(line))) == k + "=" + t
    ensures ParseEntry(line) == KeyValue(k, Unquote(t))
  {
    hide TrimSpace, TrimExport, Unquote, IsSpace;
    CutAtFirst(k, '=', t);
    assert k != "" ==> k[0] != '#';
  }

  lemma ExportTrims(body: string)
    ensures TrimExport("export " + body) == " " + body
  {
    var entry := "export " + body;
    assert entry[..6] == "export" && entry[6..] == " " + body;
  }

  /** An export line with a good key gives the key and the value without its trailing space and
      quotes. */
  lemma ExportLine(k: string, v: string)
    requires GoodKey(k)
    ensures ParseEntry("export " + k + "=" + v) == KeyValue(k, Unquote(TrimRight(v)))
  {
    hide *;
    var t := TrimRight(v);
    ExportHead(k, v);
    TrimSpaceOfLine("export " + k + "=", v);
    ExportTrims(k + "=" + t);
    BodyTrims(k, t);
    EntryOfBody("export " + k + "=" + v, k, t);
  }

  lemma ExportHead(k: string, v: string)
    ensures var head := "export " + k + "=";
            && head[0] == 'e' && !IsSpace(head[0]) && head[|head| - 1] == '=' && !IsSpace(head[|head| - 1])
            && "export " + k + "=" + v == head + v
            && head + TrimRight(v) == "export " + (k + "=" + TrimRight(v))
  {
    hide TrimRight;
  }

  lemma EqualsIsNotSpace()
    ensures !IsSpace('=')
  {
  }

  lemma BodyTrims(k: string, t: string)
    requires GoodKey(k) && (t != "" ==> !IsSpace(t[|t| - 1]))
    ensures TrimSpace(" " + (k + "=" + t)) == k + "=" + t
  {
    hide TrimSpace, IsSpace;
    var s := k + "=" + t;
    EqualsIsNotSpace();
    assert s[0] == if k == "" then '=' else k[0];
    assert s[|s| - 1] == if t == "" then '=' else t[|t| - 1];
    TrimSpaceDropsOneSpace(s);
  }

  lemma QuoteIsNotSpace()
    ensures !IsSpace('"')
  {
  }

  lemma PrintedLine(k: string, v: string)
    requires GoodKey(k)
    ensures ParseEntry("export " + k + "=\"" + v + "\"") == KeyValue(k, v)
  {
    hide ParseEntry, IsSpace;
    QuoteIsNotSpace();
    var q := "\"" + v + "\"";
    assert "export " + k + "=\"" + v + "\"" == "export " + k + "=" + q;
    ExportLine(k, q);
    assert q[|q| - 1] == '"' && q[1..|q| - 1] == v;
  }

  // ---------------------------------------------------------------- the round trip

  predicate WritesTo(k: string, t: string) {
    t == k || Alias(k) == Some(t)
  }

  /** What the writes of some keys, in that order, leave behind. */
  ghost function FoldPuts(cfg: Config, order: seq<string>): Config
    requires forall k :: k in order ==> k in cfg
  {
    if order == [] then map[]
    else Put(FoldPuts(cfg, order[..|order| - 1]), order[|order| - 1], cfg[order[|order| - 1]])
  }

  lemma {:induction false} PutsHold(cfg: Config, order: seq<string>, t: string)
    requires forall k :: k in order ==> k in cfg
    ensures t in FoldPuts(cfg, order) <==> exists k :: k in order && WritesTo(k, t)
    ensures t in FoldPuts(cfg, order) ==> exists k :: k in order && WritesTo(k, t) && FoldPuts(cfg, order)[t] == cfg[k]
  {
    if order != [] {
      var init, last := order[..|order| - 1], order[|order| - 1];
      PutsHold(cfg, init, t);
      assert forall k :: k in order <==> k in init || k == last;
      assert WritesTo(last, t) ==> FoldPuts(cfg, order)[t] == cfg[last];
    }
  }

  lemma {:induction false} ParsedOfRendered(cfg: Config, order: seq<string>)
    requires forall k :: k in order ==> k in cfg && GoodKey(k) && '\n' !in cfg[k]
    ensures Parsed(Render(cfg, order)) == FoldPuts(cfg, order)
  {
    hide ParseEntry, GoodKey, Lines, FoldLines, Put;
    NothingParsed();
    if order != [] {
      var init, k := order[..|order| - 1], order[|order| - 1];
      var v := cfg[k];
      ParsedOfRendered(cfg, init);
      var line := "export " + k + "=\"" + v + "\"";
      PrintedLine(k, v);
      NoNewlineInLine(k, v);
      LastLine(Render(cfg, init), line);
      assert Render(cfg, order) == Render(cfg, init) + (line + "\n");
      assert k in order;
    }
  }

  lemma NothingParsed()
    ensures Parsed("") == map[]
  {
  }

  lemma NoNewlineInLine(k: string, v: string)
    requires GoodKey(k) && '\n' !in v
    ensures '\n' !in "export " + k + "=\"" + v + "\""
  {
  }

  /** A text whose lines are all ended may be extended by one more. */
  lemma {:induction false} FoldOfExtended(a: string, line: string, config: Config)
    requires a == "" || a[|a| - 1] == '\n'
    requires '\n' !in line && line != "" && line[|line| - 1] != '\r'
    ensures FoldLines(Lines(a + (line + "\n")), config) == Step(FoldLines(Lines(a), config), line)
  {
    if a == "" {
      assert a + (line + "\n") == line + "\n" + "";
      FoldOfJoined(line, "", config);
      assert Lines(line) == [line];
      assert FoldLines([line], config) == Step(config, line);
    } else {
      var b := a[..|a| - 1];
      assert a == b + "\n" + "";
      assert a + (line + "\n") == b + "\n" + (line + "\n" + "");
      FoldOfJoined(b, line + "\n" + "", config);
      FoldOfJoined(b, "", config);
      var c := FoldLines(Lines(b), config);
      FoldOfJoined(line, "", c);
      assert Lines(line) == [line];
      assert FoldLines([line], c) == Step(c, line);
    }
  }

  lemma LastLine(a: string, line: string)
    requires a == "" || a[|a| - 1] == '\n'
    requires '\n' !in line && line != "" && line[|line| - 1] != '\r'
    ensures Parsed(a + (line + "\n")) == Step(Parsed(a), line)
  {
    FoldOfExtended(a, line, map[]);
  }

  /** Every key comes back with its value, under its alias too, and nothing else comes back. */
  ghost predicate RoundTrips(cfg: Config, read: Config) {
    && (forall t :: t in read <==> exists k :: k in cfg && WritesTo(k, t))
    && (forall k, t :: k in cfg && WritesTo(k, t) ==> t in read && read[t] == cfg[k])
  }

  /** The keys that would be read back under one name have one value. */
  ghost predicate WritersAgree(cfg: Config) {
    forall k, l, t :: k in cfg && l in cfg && WritesTo(k, t) && WritesTo(l, t) ==> cfg[k] == cfg[l]
  }

  /** The printed file parses back to the map and its aliases exactly when the map is printable and
      no two keys fight for one name, whatever order the map was printed in. */
  lemma PrintedFileParsesBack(cfg: Config, order: seq<string>)
    requires IsOrder(cfg, order)
    ensures RoundTrips(cfg, Parsed(Render(cfg, order))) <==> Printable(cfg) && WritersAgree(cfg)
  {
    hide Parsed, Render, RoundTrips, Printable, WritersAgree;
    if RoundTrips(cfg, Parsed(Render(cfg, order))) {
      ParsedBackIsPrintable(cfg, Render(cfg, order));
    }
    if Printable(cfg) && WritersAgree(cfg) {
      PrintableParsesBack(cfg, order);
    }
  }

  lemma ParsedBackIsPrintable(cfg: Config, text: string)
    requires RoundTrips(cfg, Parsed(text))
    ensures Printable(cfg) && WritersAgree(cfg)
  {
    ParsedIsPrintable(text);
    hide Parsed, GoodKey, Alias;
    assert forall k :: k in cfg ==> WritesTo(k, k);
    hide WritesTo;
    assert forall k :: k in cfg ==> k in Parsed(text) && Parsed(text)[k] == cfg[k];
  }

  lemma PrintableParsesBack(cfg: Config, order: seq<string>)
    requires IsOrder(cfg, order) && Printable(cfg) && WritersAgree(cfg)
    ensures RoundTrips(cfg, Parsed(Render(cfg, order)))
  {
    ParsedOfRendered(cfg, order);
    hide Parsed, Render, FoldPuts, GoodKey, WritesTo;
    forall t ensures t in FoldPuts(cfg, order) <==> exists k :: k in cfg && WritesTo(k, t)
    {
      PutsHold(cfg, order, t);
    }
    forall k, t | k in cfg && WritesTo(k, t) ensures t in FoldPuts(cfg, order) && FoldPuts(cfg, order)[t] == cfg[k]
    {
      PutsHold(cfg, order, t);
    }
  }

  lemma SomeOrderPrintsLast(cfg: Config, k: string, t: string)
    requires Printable(cfg) && k in cfg && WritesTo(k, t)
    ensures exists order :: IsOrder(cfg, order) && Parsed(Render(cfg, order))[t := cfg[k]] == Parsed(Render(cfg, order))
  {
    hide Parsed, Render, GoodKey, SomeOrder;
    var init := SomeOrder(cfg.Keys - {k});
    var order := init + [k];
    assert order[..|order| - 1] == init;
    ParsedOfRendered(cfg, order);
    assert IsOrder(cfg, order);
    assert FoldPuts(cfg, order) == Put(FoldPuts(cfg, init), k, cfg[k]);
  }

  /** Without the agreement the order of the loop decides: one printable map has two files that parse
      to different values under the name two of its keys fight for. */
  lemma LoopOrderDecides(cfg: Config, k: string, l: string, t: string)
    requires Printable(cfg) && k in cfg && l in cfg && WritesTo(k, t) && WritesTo(l, t) && cfg[k] != cfg[l]
    ensures exists p, q :: IsOrder(cfg, p) && IsOrder(cfg, q) && Parsed(Render(cfg, p)) != Parsed(Render(cfg, q))
  {
    hide Parsed, Render, WritesTo, Printable;
    SomeOrderPrintsLast(cfg, k, t);
    SomeOrderPrintsLast(cfg, l, t);
    var p :| IsOrder(cfg, p) && Parsed(Render(cfg, p))[t := cfg[k]] == Parsed(Render(cfg, p));
    var q :| IsOrder(cfg, q) && Parsed(Render(cfg, q))[t := cfg[l]] == Parsed(Render(cfg, q));
    assert Parsed(Render(cfg, p))[t] == cfg[k] && Parsed(Render(cfg, q))[t] == cfg[l];
  }

  ghost function SomeOrder(keys: set<string>): (order: seq<string>)
    ensures forall k :: k in order <==> k in keys
    ensures Distinct(order)
  {
    if keys == {} then []
    else
      var k :| k in keys;
      SomeOrder(keys - {k}) + [k]
  }

  // ---------------------------------------------------------------- credentials

  datatype Details = Details(host: string, accessKey: string, secretKey: string)

  /** getMinIOTenantDetails: the address given, else the tenant's own, with the two credentials. */
  function TenantDetails(address: string, serverHost: string, secret: Config): Option<Details> {
    var host := if address == "" then serverHost else address;
    if host == "" || "accesskey" !in secret || "secretkey" !in secret then None
    else Some(Details(host, secret["accesskey"], secret["secretkey"]))
  }

  /** The text the tenant configuration secret is given: unquoted export lines. */
  function ConfigSecretText(accessKey: string, secretKey: string): string {
    "export MINIO_ACCESS_KEY=" + accessKey + "\n" + ("export MINIO_SECRET_KEY=" + secretKey + "\n")
  }

  /** A value an unquoted line can carry. */
  predicate Plain(v: string) {
    '\n' !in v && (v != "" ==> !IsSpace(v[|v| - 1])) && !Quoted(v)
  }

  lemma UnquotedValue(v: string)
    ensures '\n' !in v ==> (Unquote(TrimRight(v)) == v <==> Plain(v))
  {
    if v != "" && IsSpace(v[|v| - 1]) {
      assert |TrimRight(v)| < |v|;
    }
  }

  lemma DropCRIsTrimmed(line: string)
    ensures ParseEntry(DropCR(line)) == ParseEntry(line)
  {
    if line != "" && line[|line| - 1] == '\r' {
      TrimSpaceDropsLast(line);
    }
  }

  lemma {:induction false} TrimLeftDropsLast(s: string, c: char)
    requires IsSpace(c)
    ensures TrimLeft(s + [c]) == if TrimLeft(s) == "" then "" else TrimLeft(s) + [c]
  {
    hide IsSpace;
    var t := s + [c];
    if s == "" {
      assert t[1..] == "";
    } else if IsSpace(s[0]) {
      TrimLeftDropsLast(s[1..], c);
      assert t[0] == s[0] && t[1..] == s[1..] + [c];
    } else {
      assert TrimLeft(s) == s && t[0] == s[0];
    }
  }

  lemma TrimSpaceDropsLast(s: string)
    requires s != "" && IsSpace(s[|s| - 1])
    ensures TrimSpace(s[..|s| - 1]) == TrimSpace(s)
  {
    hide IsSpace, TrimLeft;
    var init, c := s[..|s| - 1], s[|s| - 1];
    assert s == init + [c];
    TrimLeftDropsLast(init, c);
    var l := TrimLeft(init);
    assert (l + [c])[..|l|] == l;
  }

  lemma NoNewlineInExport(k: string, v: string)
    requires GoodKey(k) && '\n' !in v
    ensures "export " + k + "=" + v != "" && '\n' !in "export " + k + "=" + v
  {
    assert '\n' !in k;
    hide *;
    NoneInJoin("export ", k, "=", v, '\n');
  }

  lemma UnquotedLine(k: string, v: string)
    requires GoodKey(k) && '\n' !in v
    ensures Parsed("export " + k + "=" + v) == Put(map[], k, Unquote(TrimRight(v)))
  {
    hide *;
    ExportLine(k, v);
    NoNewlineInExport(k, v);
    ParsedOfLine("export " + k + "=" + v, k, Unquote(TrimRight(v)));
  }

  lemma ParsedOfLine(line: string, k: string, v: string)
    requires line != "" && '\n' !in line && ParseEntry(line) == KeyValue(k, v)
    ensures Parsed(line) == Put(map[], k, v)
  {
    hide ParseEntry, Put, Lines, FoldLines, DropCR;
    SingleLine(line, map[]);
    DropCRIsTrimmed(line);
  }

  lemma NoneInJoin(p: string, k: string, q: string, v: string, c: char)
    requires c !in p && c !in k && c !in q && c !in v && p != ""
    ensures c !in p + k + q + v && p + k + q + v != ""
  {
  }

  lemma SingleLine(line: string, config: Config)
    requires line != "" && '\n' !in line
    ensures FoldLines(Lines(line), config) == Step(config, DropCR(line))
  {
    hide Step, DropCR;
    LinesFrom(line);
    assert IndexOf(line, '\n') == |line| && line[..|line|] == line;
    NothingLeft(Step(config, DropCR(line)));
  }

  lemma NothingLeft(config: Config)
    ensures FoldLines(Lines(""), config) == config
  {
  }

  lemma KeysAreGood()
    ensures GoodKey("MINIO_ACCESS_KEY") && GoodKey("MINIO_SECRET_KEY")
  {
  }

  lemma CredentialLines(a: string, s: string)
    requires '\n' !in a && '\n' !in s
    ensures Parsed("export MINIO_ACCESS_KEY=" + a) == map["MINIO_ACCESS_KEY" := Unquote(TrimRight(a)), "accesskey" := Unquote(TrimRight(a))]
    ensures Parsed("export MINIO_SECRET_KEY=" + s) == map["MINIO_SECRET_KEY" := Unquote(TrimRight(s)), "secretkey" := Unquote(TrimRight(s))]
  {
    hide Parsed, Unquote, TrimRight, GoodKey;
    KeysAreGood();
    UnquotedLine("MINIO_ACCESS_KEY", a);
    UnquotedLine("MINIO_SECRET_KEY", s);
    assert "export " + "MINIO_ACCESS_KEY" + "=" == "export MINIO_ACCESS_KEY=";
    assert "export " + "MINIO_SECRET_KEY" + "=" == "export MINIO_SECRET_KEY=";
  }

  lemma SecretTextParsed(a: string, s: string)
    requires '\n' !in a && '\n' !in s
    ensures var read := Parsed(ConfigSecretText(a, s));
            && "accesskey" in read && read["accesskey"] == Unquote(TrimRight(a))
            && "secretkey" in read && read["secretkey"] == Unquote(TrimRight(s))
  {
    CredentialLines(a, s);
    NothingParsed();
    hide Parsed, Unquote, TrimRight;
    var x, y := "export MINIO_ACCESS_KEY=" + a, "export MINIO_SECRET_KEY=" + s;
    assert ConfigSecretText(a, s) == x + "\n" + (y + "\n" + "");
    ParsedOfJoined(x, y + "\n" + "");
    ParsedOfJoined(y, "");
  }

  /** Reading the secret back gives the very pair that was written, exactly when both are plain. */
  lemma CredentialsSurvive(address: string, serverHost: string, a: string, s: string)
    requires address != "" || serverHost != ""
    ensures TenantDetails(address, serverHost, Parsed(ConfigSecretText(a, s)))
            == Some(Details(if address == "" then serverHost else address, a, s))
            <==> Plain(a) && Plain(s)
  {
    var read := Parsed(ConfigSecretText(a, s));
    if '\n' in a || '\n' in s {
      ParsedIsPrintable(ConfigSecretText(a, s));
    } else {
      SecretTextParsed(a, s);
      UnquotedValue(a);
      UnquotedValue(s);
    }
  }

  /** Export lines for the two root names give the two credentials: the user's the access key, the
      password the secret key. */
  lemma RootLines(a: string, s: string)
    requires Plain(a) && Plain(s)
    ensures var read := Parsed("export MINIO_ROOT_USER=" + a + "\n" + ("export MINIO_ROOT_PASSWORD=" + s + "\n"));
      && "accesskey" in read && read["accesskey"] == a && "secretkey" in read && read["secretkey"] == s
      && "MINIO_ROOT_USER" in read && read["MINIO_ROOT_USER"] == a
      && "MINIO_ROOT_PASSWORD" in read && read["MINIO_ROOT_PASSWORD"] == s
  {
    hide *;
    RootLine(a, s);
    TwoLines("export MINIO_ROOT_USER=" + a, "export MINIO_ROOT_PASSWORD=" + s);
    RootMaps(a, s);
  }

  lemma TwoLines(x: string, y: string)
    ensures Parsed(x + "\n" + (y + "\n")) == Parsed(x) + Parsed(y)
  {
    NothingParsed();
    hide *;
    ParsedOfJoined(x, y + "\n");
    ParsedOfJoined(y, "");
    assert y + "\n" + "" == y + "\n";
    assert Parsed(y) + map[] == Parsed(y);
  }

  lemma RootMaps(a: string, s: string)
    ensures var read := map["MINIO_ROOT_USER" := a, "accesskey" := a] + map["MINIO_ROOT_PASSWORD" := s, "secretkey" := s];
      && "accesskey" in read && read["accesskey"] == a && "secretkey" in read && read["secretkey"] == s
      && "MINIO_ROOT_USER" in read && read["MINIO_ROOT_USER"] == a
      && "MINIO_ROOT_PASSWORD" in read && read["MINIO_ROOT_PASSWORD"] == s
  {
  }

  lemma RootLine(a: string, s: string)
    requires Plain(a) && Plain(s)
    ensures Parsed("export MINIO_ROOT_USER=" + a) == map["MINIO_ROOT_USER" := a, "accesskey" := a]
    ensures Parsed("export MINIO_ROOT_PASSWORD=" + s) == map["MINIO_ROOT_PASSWORD" := s, "secretkey" := s]
  {
    hide *;
    RootKeysAreGood();
    RootPuts(a, s);
    RootHeads();
    PlainLine("MINIO_ROOT_USER", a);
    PlainLine("MINIO_ROOT_PASSWORD", s);
  }

  lemma RootHeads()
    ensures "export " + "MINIO_ROOT_USER" + "=" == "export MINIO_ROOT_USER="
    ensures "export " + "MINIO_ROOT_PASSWORD" + "=" == "export MINIO_ROOT_PASSWORD="
  {
  }

  lemma PlainLine(k: string, v: string)
    requires GoodKey(k) && Plain(v)
    ensures Parsed("export " + k + "=" + v) == Put(map[], k, v)
  {
    assert '\n' !in v;
    UnquotedValue(v);
    hide *;
    UnquotedLine(k, v);
  }

  lemma RootPuts(a: string, s: string)
    ensures Put(map[], "MINIO_ROOT_USER", a) == map["MINIO_ROOT_USER" := a, "accesskey" := a]
    ensures Put(map[], "MINIO_ROOT_PASSWORD", s) == map["MINIO_ROOT_PASSWORD" := s, "secretkey" := s]
  {
  }

  lemma RootKeysAreGood()
    ensures GoodKey("MINIO_ROOT_USER") && GoodKey("MINIO_ROOT_PASSWORD")
  {
  }

  /** The printed file of any printable map holds its credentials under the names the tenant reads: a user
      alone gives the access key, a password alone the secret key, whatever the order of the loop. */
  lemma PrintedCredentials(cfg: Config, order: seq<string>)
    requires IsOrder(cfg, order) && Printable(cfg) && "accesskey" !in cfg && "secretkey" !in cfg
    ensures var read := Parsed(Render(cfg, order));
      && ("MINIO_ROOT_USER" in cfg && "MINIO_ACCESS_KEY" !in cfg ==> "accesskey" in read && read["accesskey"] == cfg["MINIO_ROOT_USER"])
      && ("MINIO_ACCESS_KEY" in cfg && "MINIO_ROOT_USER" !in cfg ==> "accesskey" in read && read["accesskey"] == cfg["MINIO_ACCESS_KEY"])
      && ("MINIO_ROOT_PASSWORD" in cfg && "MINIO_SECRET_KEY" !in cfg ==>
            "secretkey" in read && read["secretkey"] == cfg["MINIO_ROOT_PASSWORD"])
      && ("MINIO_SECRET_KEY" in cfg && "MINIO_ROOT_PASSWORD" !in cfg ==>
            "secretkey" in read && read["secretkey"] == cfg["MINIO_SECRET_KEY"])
      && ("accesskey" in read ==> "MINIO_ROOT_USER" in cfg || "MINIO_ACCESS_KEY" in cfg)
      && ("secretkey" in read ==> "MINIO_ROOT_PASSWORD" in cfg || "MINIO_SECRET_KEY" in cfg)
  {
    ParsedOfRendered(cfg, order);
    PutsHold(cfg, order, "accesskey");
    PutsHold(cfg, order, "secretkey");
    WritersOfCredentials();
    hide Parsed, Render, FoldPuts, GoodKey, WritesTo, Printable;
  }

  lemma WritersOfCredentials()
    ensures forall k :: WritesTo(k, "accesskey") <==> k in {"accesskey", "MINIO_ROOT_USER", "MINIO_ACCESS_KEY"}
    ensures forall k :: WritesTo(k, "secretkey") <==> k in {"secretkey", "MINIO_ROOT_PASSWORD", "MINIO_SECRET_KEY"}
  {
  }

  /** With one of the two credentials missing there are no details, whatever the addresses. */
  lemma DetailsNeedBoth(address: string, serverHost: string, a: string)
    requires Plain(a)
    ensures TenantDetails(address, serverHost, Parsed("export MINIO_ROOT_USER=" + a)) == None
    ensures TenantDetails(address, serverHost, Parsed("export MINIO_ROOT_PASSWORD=" + a)) == None
    ensures TenantDetails("", "", Parsed(ConfigSecretText(a, a))) == None
  {
    RootLine(a, a);
    hide Parsed, Plain;
  }

  // ---------------------------------------------------------------- lines of other forms

  /** A line without the word export is read as well. */
  lemma BareLine(k: string, v: string)
    requires GoodKey(k) && k != "" && !("export" <= k + "=" + v)
    ensures ParseEntry(k + "=" + v) == KeyValue(k, Unquote(TrimRight(v)))
  {
    BareLineTrims(k, v);
    hide *;
    EntryOfBody(k + "=" + v, k, TrimRight(v));
  }

  lemma BareLineTrims(k: string, v: string)
    requires GoodKey(k) && k != "" && !("export" <= k + "=" + v)
    ensures var t := k + "=" + TrimRight(v); TrimSpace(k + "=" + v) == t && TrimSpace(TrimExport(t)) == t && k + "=" != ""
  {
    hide *;
    var p, t := k + "=", TrimRight(v);
    KeyEndsWell(k);
    NotExported(k, v);
    Unexported(p + t);
    TrimmedStays(v);
    TrimSpaceOfLine(p, v);
    TrimSpaceOfLine(p, t);
  }

  lemma KeyEndsWell(k: string)
    requires GoodKey(k) && k != ""
    ensures var p := k + "="; p != "" && !IsSpace(p[0]) && !IsSpace(p[|p| - 1])
  {
    EqualsIsNotSpace();
    hide IsSpace;
    assert (k + "=")[0] == k[0];
  }

  lemma Unexported(s: string)
    requires !("export" <= s)
    ensures TrimExport(s) == s
  {
  }

  lemma TrimmedStays(v: string)
    ensures TrimRight(TrimRight(v)) == TrimRight(v)
  {
  }

  lemma NotExported(k: string, v: string)
    requires !("export" <= k + "=" + v)
    ensures !("export" <= k + "=" + TrimRight(v))
  {
    var s, t := k + "=" + v, k + "=" + TrimRight(v);
    assert t <= s;
  }

  /** Single and double quotes around a value are dropped, and only a pair of the same kind. */
  lemma QuotesAreDropped(v: string)
    ensures Unquote("\"" + v + "\"") == v && Unquote("'" + v + "'") == v
    ensures Unquote("\"" + v + "'") == "\"" + v + "'" && Unquote("'" + v + "\"") == "'" + v + "\""
    ensures v == "" || (v[0] != '"' && v[0] != '\'') ==> Unquote(v) == v
  {
    var d, s := "\"" + v + "\"", "'" + v + "'";
    assert d[1..|d| - 1] == v && s[1..|s| - 1] == v;
    var x, y := "\"" + v + "'", "'" + v + "\"";
    assert x[|x| - 1] == '\'' && y[|y| - 1] == '"';
  }

  /** Empty lines, lines of spaces and comments say nothing; a line without '=' is malformed. */
  lemma LinesThatSayNothing(v: string)
    ensures ParseEntry("") == Skip && ParseEntry(" \t") == Skip
    ensures '=' in v ==> ParseEntry("#" + v) == Skip
    ensures '=' !in v ==> ParseEntry("#" + v) == Malformed
  {
    assert TrimSpace(" \t") == "";
    CommentLine(v);
  }

  lemma CommentLine(v: string)
    ensures ParseEntry("#" + v) == if '=' in v then Skip else Malformed
  {
    CommentTrims(v);
    EqualsSurvivesTrim(v);
    hide TrimSpace, TrimRight, IsSpace, TrimExport, Unquote;
    EqualsBehindMark(TrimRight(v));
  }

  lemma CommentTrims(v: string)
    ensures var body := "#" + TrimRight(v);
      TrimSpace("#" + v) == body && TrimExport(body) == body && TrimSpace(body) == body
  {
    TrimSpaceOfLine("#", v);
    TrimmedStays(v);
    TrimSpaceOfLine("#", TrimRight(v));
    hide TrimSpace, TrimRight;
    assert ("#" + TrimRight(v))[0] == '#';
  }

  lemma EqualsBehindMark(t: string)
    ensures var body := "#" + t; var i := IndexOf(body, '=');
      if '=' in t then 0 < i < |body| && "#" <= body[..i] else i == |body|
  {
    var body := "#" + t;
    if '=' in t {
      var k :| 0 <= k < |t| && t[k] == '=';
      assert body[k + 1] == '=';
    } else {
      assert '=' !in body;
    }
  }

  lemma {:induction false} EqualsSurvivesTrim(v: string)
    ensures '=' in TrimRight(v) <==> '=' in v
  {
    EqualsIsNotSpace();
    if v != "" && IsSpace(v[|v| - 1]) {
      EqualsSurvivesTrim(v[..|v| - 1]);
      assert v == v[..|v| - 1] + [v[|v| - 1]];
    }
  }

  type byte = x: int | 0 <= x < 256

  const DIGITS := "0123456789"
  const UPPER := "ABCDEFGHIJKLMNOPQRSTUVWXYZ"
  const LOWER := "abcdefghijklmnopqrstuvwxyz"
  const ALPHA_NUMERIC_TABLE := DIGITS + UPPER
  const ALPHA_NUMERIC_TABLE_FULL := UPPER + LOWER + DIGITS

  lemma UpperIsAlphaNumeric()
    ensures |UPPER| == 26 && forall c :: c in UPPER ==> AlphaNumeric(c)
  {
  }

  lemma LowerIsAlphaNumeric()
    ensures |LOWER| == 26 && forall c :: c in LOWER ==> AlphaNumeric(c)
  {
  }

  lemma TablesAreAlphaNumeric()
    ensures |ALPHA_NUMERIC_TABLE| == 36 && forall c :: c in ALPHA_NUMERIC_TABLE ==> AlphaNumeric(c)
    ensures |ALPHA_NUMERIC_TABLE_FULL| == 62 && forall c :: c in ALPHA_NUMERIC_TABLE_FULL ==> AlphaNumeric(c)
  {
    assert |DIGITS| == 10 && forall c :: c in DIGITS ==> AlphaNumeric(c);
    UpperIsAlphaNumeric();
    LowerIsAlphaNumeric();
    hide AlphaNumeric;
  }

  /** Which characters stand where in the two tables. */
  lemma TableEntries(i: nat)
    ensures |ALPHA_NUMERIC_TABLE| == 36 && |ALPHA_NUMERIC_TABLE_FULL| == 62
    ensures i < 36 ==> ALPHA_NUMERIC_TABLE[i] as int == if i < 10 then '0' as int + i else 'A' as int + i - 10
    ensures i < 62 ==>
      ALPHA_NUMERIC_TABLE_FULL[i] as int
      == if i < 26 then 'A' as int + i else if i < 52 then 'a' as int + i - 26 else '0' as int + i - 52
  {
    DigitEntries(i);
    UpperEntries(i);
    UpperEntries(if i >= 10 then i - 10 else 0);
    LowerEntries(if i >= 26 then i - 26 else 0);
    DigitEntries(if i >= 52 then i - 52 else 0);
    assert |DIGITS| == 10 && |UPPER| == 26 && |LOWER| == 26;
    hide *;
  }

  lemma DigitEntries(i: nat)
    ensures i < 10 ==> DIGITS[i] as int == '0' as int + i
  {
  }

  lemma UpperEntries(i: nat)
    ensures i < 26 ==> UPPER[i] as int == 'A' as int + i
  {
  }

  lemma LowerEntries(i: nat)
    ensures i < 26 ==> LOWER[i] as int == 'a' as int + i
  {
  }

  function AsString(bytes: seq<byte>): (s: string)
    ensures |s| == |bytes| && forall i :: 0 <= i < |s| ==> s[i] == bytes[i] as char
  {
    seq(|bytes|, i requires 0 <= i < |bytes| => bytes[i] as char)
  }

  /** The loop of GenerateCredentials, in place over the random bytes. */
  method MapBytes(keyBytes: array<byte>, table: string)
    requires 0 < |table| && forall c :: c in table ==> AlphaNumeric(c)
    modifies keyBytes
    ensures forall i :: 0 <= i < keyBytes.Length ==> keyBytes[i] == table[old(keyBytes[i]) % |table|] as int
  {
    for i := 0 to keyBytes.Length
      invariant forall j :: 0 <= j < i ==> keyBytes[j] == table[old(keyBytes[j]) % |table|] as int
      invariant forall j :: i <= j < keyBytes.Length ==> keyBytes[j] == old(keyBytes[j])
    {
      assert table[keyBytes[i] % |table|] in table;
      keyBytes[i] := table[keyBytes[i] % |table|] as int;
    }
  }

  method Draw(random: seq<byte>, table: string) returns (key: string)
    requires 0 < |table| && forall c :: c in table ==> AlphaNumeric(c)
    ensures |key| == |random|
    ensures forall i :: 0 <= i < |key| ==> key[i] == table[random[i] % |table|]
  {
    var keyBytes := new byte[|random|](i requires 0 <= i < |random| => random[i]);
    assert keyBytes[..] == random;
    MapBytes(keyBytes, table);
    key := AsString(keyBytes[..]);
  }

  /** GenerateCredentials, with the two reads of the random source as parameters. */
  method GenerateCredentials(first: Option<seq<byte>>, second: Option<seq<byte>>) returns (r: Option<(string, string)>)
    requires first.Some? ==> |first.value| == 20
    requires second.Some? ==> |second.value| == 40
    ensures r.Some? <==> first.Some? && second.Some?
    ensures r.Some? ==>
      && |r.value.0| == 20 && |r.value.1| == 40
      && (forall i :: 0 <= i < 20 ==> r.value.0[i] == ALPHA_NUMERIC_TABLE[first.value[i] % 36])
      && (forall i :: 0 <= i < 40 ==> r.value.1[i] == ALPHA_NUMERIC_TABLE_FULL[second.value[i] % 62])
    ensures r.Some? ==> Plain(r.value.0) && Plain(r.value.1)
  {
    TablesAreAlphaNumeric();
    hide Plain;
    if first.None? {
      return None;
    }
    var accessKey := Draw(first.value, ALPHA_NUMERIC_TABLE);
    if second.None? {
      return None;
    }
    var secretKey := Draw(second.value, ALPHA_NUMERIC_TABLE_FULL);
    AlphaNumericIsPlain(accessKey);
    AlphaNumericIsPlain(secretKey);
    r := Some((accessKey, secretKey));
  }

  lemma AlphaNumericIsPlain(v: string)
    requires forall i :: 0 <= i < |v| ==> AlphaNumeric(v[i])
    ensures Plain(v)
  {
  }
}
