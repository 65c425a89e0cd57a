/** Which classes the agent instruments, by name. */
module ClassFilter {
  import opened Sequences

  /** A class name with slashes. */
  datatype Name = Name(text: string)

  /** The include and exclude patterns in force. */
  datatype Rules = Rules(includes: string, excludes: string)

  predicate StartsWithAny(s: string, prefixes: seq<string>) {
    exists k :: 0 <= k < |prefixes| && prefixes[k] <= s
  }

  const OWN: seq<string> := ["com/openprofiler/agent/", "com/openprofiler/protocol/", "com/google/protobuf/", "org/objectweb/asm/"]

  const JDK: seq<string> := ["java/", "javax/", "sun/", "jdk/", "com/sun/"]

  const LIBRARIES: seq<string> := [
    "org/springframework/", "org/apache/", "org/objectweb/", "org/slf4j/", "ch/qos/logback/", "com/fasterxml/",
    "com/google/", "io/netty/", "io/micrometer/", "reactor/", "kotlin/", "scala/"]

  const JDBC_DRIVERS: seq<string> := [
    "org/hsqldb/", "org/postgresql/", "com/mysql/", "com/microsoft/sqlserver/", "oracle/jdbc/", "org/mariadb/jdbc/",
    "com/ibm/db2/"]

  const TRACED: seq<string> := [
    "java/net/URL", "java/net/HttpURLConnection", "sun/net/www/protocol/http/HttpURLConnection",
    "java/io/InputStreamReader", "java/io/BufferedReader", "java/io/OutputStream", "sun/net/httpserver/ExchangeImpl",
    "com/sun/net/httpserver/HttpExchange", "java/util/concurrent/ThreadPoolExecutor",
    "java/util/concurrent/ThreadPoolExecutor$Worker", "java/rmi/registry/Registry", "javax/persistence/EntityManager",
    "javax/persistence/TypedQuery"]

  predicate IsOwn(name: Name) {
    StartsWithAny(name.text, OWN)
  }

  predicate IsAllocationTraceClass(name: Name) {
    || name.text in TRACED
    || EndsWith(name.text, "OutputStream")
    || StartsWithAny(name.text, ["java/lang/String", "java/lang/AbstractStringBuilder"])
  }

  // ---- patterns

  function Split(s: string): (parts: seq<string>)
    ensures parts != []
  {
    if s == "" then [""]
    else
      var n := |s| - 1;
      var before := Split(s[..n]);
      if s[n] == '|' || s[n] == ',' then before + [""]
      else before[..|before| - 1] + [before[|before| - 1] + [s[n]]]
  }

  function TrimEnd(s: string): string {
    if s != "" && s[|s| - 1] <= ' ' then TrimEnd(s[..|s| - 1]) else s
  }

  function Trim(s: string): string
    decreases |s|
  {
    if s != "" && s[0] <= ' ' then Trim(s[1..]) else TrimEnd(s)
  }

  function WithSlashes(s: string): (r: string)
    ensures |r| == |s|
  {
    seq(|s|, k requires 0 <= k < |s| => if s[k] == '.' then '/' else s[k])
  }

  function PrefixOf(pattern: string): string {
    var prefix := WithSlashes(Trim(pattern));
    if EndsWith(prefix, "*") then prefix[..|prefix| - 1] else prefix
  }

  predicate MatchesAnyPrefix(name: Name, patterns: string) {
    var parts := Split(patterns);
    exists k :: 0 <= k < |parts| && PrefixOf(parts[k]) != "" && PrefixOf(parts[k]) <= name.text
  }

  predicate ShouldRecordMethods(name: Name, hasLoader: bool, rules: Rules) {
    && (hasLoader || "com/openprofiler/benchmark/" <= name.text)
    && !StartsWithAny(name.text, JDK) && !StartsWithAny(name.text, JDBC_DRIVERS) && !StartsWithAny(name.text, LIBRARIES)
    && !MatchesAnyPrefix(name, rules.excludes)
    && (Trim(rules.includes) == "" || MatchesAnyPrefix(name, Trim(rules.includes)))
  }

  predicate ShouldInspect(name: Name, hasLoader: bool, rules: Rules) {
    && name.text != "jdbc/CustomFunction"
    && !IsOwn(name)
    && (IsAllocationTraceClass(name) || ShouldRecordMethods(name, hasLoader, rules))
  }

  /** Classes worth instrumenting. */
  predicate IsEligible(name: Name, hasLoader: bool, rules: Rules) {
    && ShouldInspect(name, hasLoader, rules)
    && (ShouldRecordMethods(name, hasLoader, rules) || IsAllocationTraceClass(name))
  }

  lemma OwnClassesAreNotEligible(name: Name, hasLoader: bool, rules: Rules)
    ensures IsOwn(name) ==> !IsEligible(name, hasLoader, rules)
  {
    hide StartsWithAny, ShouldRecordMethods, IsAllocationTraceClass;
  }
}
