/**
 * The probe registry `WebReconX.MODULES`: a fixed table, in declaration
 * order, from module key to display name, description and probe class.
 * Python dictionaries iterate in insertion order, so the table is a
 * sequence and lookups return the (unique) entry with the given key.
 */
module ModuleRegistry {
  import opened Wrappers

  /** The probe classes the registry names; their behaviour is not modelled. */
  datatype ProbeClass =
    | SecurityHeaderScanner
    | SSLAnalyzer
    | TechDetector
    | PortScanner
    | DNSRecon
    | SubdomainFinder
    | WaybackFetcher

  datatype ModuleInfo = ModuleInfo(key: string, name: string, desc: string, probe: ProbeClass)

  const Modules: seq<ModuleInfo> := [
    ModuleInfo("headers", "Security Header Scanner",
      "Analyzes HTTP security headers and identifies misconfigurations", SecurityHeaderScanner),
    ModuleInfo("ssl", "SSL/TLS Analyzer",
      "Checks SSL certificate validity, protocol versions, and cipher suites", SSLAnalyzer),
    ModuleInfo("tech", "Technology Detector",
      "Identifies web technologies, frameworks, and server software", TechDetector),
    ModuleInfo("ports", "Port Scanner",
      "Scans common ports and identifies running services", PortScanner),
    ModuleInfo("dns", "DNS Reconnaissance",
      "Enumerates DNS records (A, AAAA, MX, NS, TXT, CNAME, SOA)", DNSRecon),
    ModuleInfo("subdomains", "Subdomain Finder",
      "Discovers subdomains using multiple data sources", SubdomainFinder),
    ModuleInfo("wayback", "Wayback Machine Fetcher",
      "Retrieves historical URLs and endpoints from Wayback Machine", WaybackFetcher)
  ]

  /** The keys of a table, in table order. */
  function KeysOf(table: seq<ModuleInfo>): (ks: seq<string>)
    ensures |ks| == |table|
    ensures forall i :: 0 <= i < |table| ==> ks[i] == table[i].key
  {
    if table == [] then [] else [table[0].key] + KeysOf(table[1..])
  }

  /** `list(MODULES.keys())`. */
  function AllKeys(): seq<string>
  {
    KeysOf(Modules)
  }

  /** No two entries of the table share a key. */
  predicate DistinctKeys(table: seq<ModuleInfo>)
  {
    forall i, j :: 0 <= i < j < |table| ==> table[i].key != table[j].key
  }

  /** The first entry of `table` whose key is `key`, if there is one. */
  function Find(table: seq<ModuleInfo>, key: string): (r: Option<ModuleInfo>)
    ensures r.None? <==> key !in KeysOf(table)
    ensures r.Some? ==> r.value in table && r.value.key == key
  {
    if table == [] then None
    else if table[0].key == key then Some(table[0])
    else Find(table[1..], key)
  }

  /** `key in MODULES`, for any registry table. */
  predicate Knows(table: seq<ModuleInfo>, key: string)
  {
    Find(table, key).Some?
  }

  /** The display name a registry table gives a key it knows. */
  function NameIn(table: seq<ModuleInfo>, key: string): string
    requires Knows(table, key)
  {
    Find(table, key).value.name
  }

  /** `list(MODULES.keys())`, written out. */
  lemma AllKeysListed()
    ensures AllKeys() == ["headers", "ssl", "tech", "ports", "dns", "subdomains", "wayback"]
  {
  }

  /** The registry's keys are unique, so a key identifies one entry. */
  lemma RegistryKeysDistinct()
    ensures DistinctKeys(Modules)
    ensures |AllKeys()| == 7
    ensures forall i, j :: 0 <= i < j < |AllKeys()| ==> AllKeys()[i] != AllKeys()[j]
  {
    var ks := AllKeys();
    AllKeysListed();
    ListedKeysDistinct(ks);
  }

  lemma ListedKeysDistinct(ks: seq<string>)
    requires ks == ["headers", "ssl", "tech", "ports", "dns", "subdomains", "wayback"]
    ensures |ks| == 7 && forall i, j :: 0 <= i < j < |ks| ==> ks[i] != ks[j]
  {
  }

  /**
   * With unique keys, the entry found for the key at position `i` is the
   * entry at position `i`.
   */
  lemma {:induction false} FindAt(table: seq<ModuleInfo>, i: nat)
    requires DistinctKeys(table) && i < |table|
    ensures Find(table, table[i].key) == Some(table[i])
  {
    if i > 0 {
      FindAt(table[1..], i - 1);
    }
  }

  /**
   * `modules or list(MODULES.keys())`: an absent or empty selection means
   * every registry key in table order; any other selection is taken as
   * given, with its order, duplicates and unknown keys.
   */
  function DefaultSelection(modules: Option<seq<string>>): (sel: seq<string>)
    ensures sel != []
    ensures (modules.None? || modules.value == []) ==> sel == AllKeys()
    ensures modules.Some? && modules.value != [] ==> sel == modules.value
  {
    if modules.None? || modules.value == [] then AllKeys() else modules.value
  }

  /** Every key of the default selection is known to the registry. */
  lemma DefaultSelectionIsKnown(modules: Option<seq<string>>)
    requires modules.None? || modules.value == []
    ensures forall k :: k in DefaultSelection(modules) ==> Knows(Modules, k)
  {
  }
}
