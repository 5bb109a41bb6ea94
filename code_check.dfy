/**
 * The malicious-code checkers run before a function is registered: Python
 * and Node code is refused when it contains any blacklisted string; Java
 * code is parsed and refused when a method call's "scope.name" signature
 * contains a blocked call, falling back to a substring test on the whole
 * source when parsing fails.  Null or blank code is always accepted.  The
 * checkers are looked up by runtime in a registry built once.
 */
module CodeCheck {
  import opened Common
  import opened Registries

  const PYTHON_BLACKLIST: seq<string> :=
    ["os.system", "subprocess.call", "subprocess.Popen", "eval(", "exec(", "import os", "import subprocess"]

  const NODE_BLACKLIST: seq<string> :=
    ["child_process", "fs.unlink", "fs.rm", "eval(", "process.exit", "process.kill"]

  const BLOCKED_JAVA_CALLS: set<string> :=
    {"System.exit", "Runtime.getRuntime", "ProcessBuilder.start", "System.setSecurityManager"}

  // ---------------------------------------------------------------------
  // Keyword blacklists (Python, Node)
  // ---------------------------------------------------------------------

  /** The first blacklisted string, in list order, that occurs in the code: the loop's early return. */
  function FirstHit(code: string, keywords: seq<string>): (hit: Option<string>)
    ensures hit.Some? ==> hit.value in keywords && Contains(code, hit.value)
    ensures hit.None? ==> forall k :: k in keywords ==> !Contains(code, k)
    ensures hit.Some? ==> exists i :: 0 <= i < |keywords| && keywords[i] == hit.value &&
                            forall j :: 0 <= j < i ==> !Contains(code, keywords[j])
  {
    if keywords == [] then None
    else if Contains(code, keywords[0]) then Some(keywords[0])
    else
      var hit := FirstHit(code, keywords[1..]);
      if hit.Some? then
        var i :| 0 <= i < |keywords[1..]| && keywords[1..][i] == hit.value &&
                 forall j :: 0 <= j < i ==> !Contains(code, keywords[1..][j]);
        assert keywords[i + 1] == hit.value;
        hit
      else hit
  }

  /** isSafe of a keyword checker; `None` is a null code string. */
  predicate KeywordSafe(code: Option<string>, keywords: seq<string>) {
    code.None? || IsBlank(code.value) || FirstHit(code.value, keywords).None?
  }

  predicate PythonIsSafe(code: Option<string>) {
    KeywordSafe(code, PYTHON_BLACKLIST)
  }

  predicate NodeIsSafe(code: Option<string>) {
    KeywordSafe(code, NODE_BLACKLIST)
  }

  /** A string with a character that is not white space. */
  predicate Visible(k: string) {
    exists i :: 0 <= i < |k| && !IsJavaWhitespace(k[i])
  }

  /** Blank code contains no visible string. */
  lemma BlankContainsNoVisible(code: string, k: string)
    requires IsBlank(code) && Visible(k)
    ensures !Contains(code, k)
  {
    var i :| 0 <= i < |k| && !IsJavaWhitespace(k[i]);
    forall p | 0 <= p <= |code|
      ensures !OccursAt(code, k, p)
    {
      if p + |k| <= |code| {
        assert code[p..p + |k|][i] == code[p + i];
      }
    }
  }

  /**
   * When every blacklisted string is visible, the blank short-circuit
   * changes nothing: code is safe exactly when no blacklisted string occurs.
   */
  lemma KeywordSafeIff(code: string, keywords: seq<string>)
    requires forall k :: k in keywords ==> Visible(k)
    ensures KeywordSafe(Some(code), keywords) <==> forall k :: k in keywords ==> !Contains(code, k)
  {
    if IsBlank(code) {
      forall k | k in keywords
        ensures !Contains(code, k)
      {
        BlankContainsNoVisible(code, k);
      }
    }
  }

  lemma BlacklistsVisible()
    ensures forall k :: k in PYTHON_BLACKLIST ==> Visible(k)
    ensures forall k :: k in NODE_BLACKLIST ==> Visible(k)
  {
    forall k | k in PYTHON_BLACKLIST || k in NODE_BLACKLIST
      ensures Visible(k)
    {
      assert !IsJavaWhitespace(k[0]);
    }
  }

  /** The Python verdict: unsafe exactly when one of the seven strings occurs. */
  lemma PythonSafeIff(code: string)
    ensures PythonIsSafe(Some(code)) <==> forall k :: k in PYTHON_BLACKLIST ==> !Contains(code, k)
  {
    BlacklistsVisible();
    KeywordSafeIff(code, PYTHON_BLACKLIST);
  }

  /** The Node verdict: unsafe exactly when one of the six strings occurs. */
  lemma NodeSafeIff(code: string)
    ensures NodeIsSafe(Some(code)) <==> forall k :: k in NODE_BLACKLIST ==> !Contains(code, k)
  {
    BlacklistsVisible();
    KeywordSafeIff(code, NODE_BLACKLIST);
  }

  /** The verdict depends on the set of blacklisted strings, not on their order. */
  lemma KeywordOrderIrrelevant(code: Option<string>, a: seq<string>, b: seq<string>)
    requires forall k :: k in a <==> k in b
    ensures KeywordSafe(code, a) == KeywordSafe(code, b)
  {
    if code.Some? && FirstHit(code.value, a).Some? {
      assert FirstHit(code.value, a).value in b;
    }
    if code.Some? && FirstHit(code.value, b).Some? {
      assert FirstHit(code.value, b).value in a;
    }
  }

  /** Unsafe code stays unsafe whatever is written around it. */
  lemma UnsafeStaysUnsafe(code: string, before: string, after: string, keywords: seq<string>)
    requires !KeywordSafe(Some(code), keywords)
    ensures !KeywordSafe(Some(before + code + after), keywords)
  {
    var k := FirstHit(code, keywords).value;
    ContainsExtended(code, k, before, after);
    var i :| 0 <= i < |code| && !IsJavaWhitespace(code[i]);
    assert (before + code + after)[|before| + i] == code[i];
  }

  // ---------------------------------------------------------------------
  // Java
  // ---------------------------------------------------------------------

  /** A method call of the parsed source: its optional scope expression (as printed) and its name. */
  datatype MethodCall = MethodCall(scope: Option<string>, name: string)

  /** What the Java parser yields: an error, or the method calls in visiting order. */
  datatype JavaParse = ParseError | Parsed(calls: seq<MethodCall>)

  /** The signature the visitor checks: "scope.name", or just the name without a scope. */
  function Signature(c: MethodCall): string {
    (if c.scope.Some? then c.scope.value + "." else "") + c.name
  }

  /** A text containing one of the blocked calls. */
  predicate Blocked(text: string) {
    exists b :: b in BLOCKED_JAVA_CALLS && Contains(text, b)
  }

  /** checkByKeywords: the fallback after a parse error. */
  predicate CheckByKeywords(code: string) {
    !Blocked(code)
  }

  /** The signature of the last blocked call, if any. */
  function LastBlocked(calls: seq<MethodCall>): (r: Option<string>)
    ensures r.Some? <==> exists i :: 0 <= i < |calls| && Blocked(Signature(calls[i]))
  {
    if calls == [] then None
    else if Blocked(Signature(calls[|calls| - 1])) then Some(Signature(calls[|calls| - 1]))
    else
      var r := LastBlocked(calls[..|calls| - 1]);
      assert forall i :: 0 <= i < |calls| - 1 ==> calls[..|calls| - 1][i] == calls[i];
      r
  }

  /** SecurityVisitor: a flag that, once set, stays set, and the reason of the last flagged call. */
  class SecurityVisitor {
    var malicious: bool
    var detectedReason: string

    constructor ()
      ensures !malicious && detectedReason == ""
    {
      malicious := false;
      detectedReason := "";
    }

    /** visit(MethodCallExpr). */
    method Visit(n: MethodCall)
      modifies this
      ensures malicious == (old(malicious) || Blocked(Signature(n)))
      ensures detectedReason == if Blocked(Signature(n)) then "Blocked call: " + Signature(n) else old(detectedReason)
    {
      var signature := Signature(n);
      if Blocked(signature) {
        malicious := true;
        detectedReason := "Blocked call: " + signature;
      }
    }

    /** The traversal: every call in order. */
    method Traverse(calls: seq<MethodCall>)
      modifies this
      ensures malicious == (old(malicious) || LastBlocked(calls).Some?)
      ensures detectedReason == if LastBlocked(calls).Some? then "Blocked call: " + LastBlocked(calls).value
                                else old(detectedReason)
    {
      var i := 0;
      while i < |calls|
        invariant 0 <= i <= |calls|
        invariant malicious == (old(malicious) || LastBlocked(calls[..i]).Some?)
        invariant detectedReason == if LastBlocked(calls[..i]).Some? then "Blocked call: " + LastBlocked(calls[..i]).value
                                    else old(detectedReason)
      {
        assert calls[..i + 1][..i] == calls[..i];
        Visit(calls[i]);
        i := i + 1;
      }
      assert calls[..i] == calls;
    }
  }

  /**
   * The Java checker's verdict: null or blank code is safe; parsed code is
   * safe when none of its calls is blocked; unparsable code falls back to
   * the keyword check.
   */
  predicate JavaVerdict(code: Option<string>, parse: JavaParse) {
    code.None? || IsBlank(code.value)
    || (parse.ParseError? && CheckByKeywords(code.value))
    || (parse.Parsed? && forall i :: 0 <= i < |parse.calls| ==> !Blocked(Signature(parse.calls[i])))
  }

  /** The Java checker's isSafe, given what the parser makes of the code. */
  method JavaIsSafe(code: Option<string>, parse: JavaParse) returns (safe: bool)
    ensures safe <==> code.None? || IsBlank(code.value)
                      || (parse.ParseError? && CheckByKeywords(code.value))
                      || (parse.Parsed? && forall i :: 0 <= i < |parse.calls| ==> !Blocked(Signature(parse.calls[i])))
    ensures safe == JavaVerdict(code, parse)
  {
    if code.None? || IsBlank(code.value) {
      return true;
    }
    if parse.ParseError? {
      return CheckByKeywords(code.value);
    }
    var visitor := new SecurityVisitor();
    visitor.Traverse(parse.calls);
    safe := !visitor.malicious;
  }

  /** The fallback refuses exactly the sources that mention one of the four blocked calls. */
  lemma FallbackIff(code: string)
    ensures CheckByKeywords(code) <==>
              !Contains(code, "System.exit") && !Contains(code, "Runtime.getRuntime")
              && !Contains(code, "ProcessBuilder.start") && !Contains(code, "System.setSecurityManager")
  {
    if Blocked(code) {
      var b :| b in BLOCKED_JAVA_CALLS && Contains(code, b);
    }
  }

  /** A qualified call to System.exit is caught whatever its arguments. */
  lemma SystemExitCaught()
    ensures Blocked(Signature(MethodCall(Some("System"), "exit")))
  {
    assert OccursAt(Signature(MethodCall(Some("System"), "exit")), "System.exit", 0);
  }

  // ---------------------------------------------------------------------
  // The checker registry
  // ---------------------------------------------------------------------

  datatype Language = PythonCode | NodeCode | JavaCode

  /** The verdict of the checker of a language on the code. */
  predicate CheckerSafe(checker: Language, code: Option<string>, parse: JavaParse) {
    match checker
    case PythonCode => PythonIsSafe(code)
    case NodeCode => NodeIsSafe(code)
    case JavaCode => JavaVerdict(code, parse)
  }

  /** The checker family each runtime's checker belongs to. */
  function LanguageOf(r: Runtime): Language {
    match r
    case Java17 => JavaCode
    case Java21 => JavaCode
    case Python310 => PythonCode
    case Python311 => PythonCode
    case Node18 => NodeCode
    case Node20 => NodeCode
  }

  /** The runtimes of the registered checkers: every checker but Java 21's, which is not a component. */
  const REGISTERED_CHECKERS: seq<Runtime> := [Java17, Node18, Node20, Python310, Python311]

  function CheckerEntries(runtimes: seq<Runtime>): seq<(Runtime, Language)> {
    seq(|runtimes|, i requires 0 <= i < |runtimes| => (runtimes[i], LanguageOf(runtimes[i])))
  }

  /** MaliciousCodeCheckAdapterFactory's constructor. */
  function BuildCheckerRegistry(runtimes: seq<Runtime>): Result<map<Runtime, Language>, Runtime> {
    ToMap(CheckerEntries(runtimes))
  }

  /** getAdapter. */
  function GetChecker(registry: map<Runtime, Language>, r: Runtime): Result<Language, string> {
    Lookup(registry, r, RuntimeName(r))
  }

  /**
   * The registry builds from the registered checkers; every runtime but
   * Java 21 finds the checker of its family, and Java 21 is unsupported.
   */
  lemma CheckerRegistryContents()
    ensures BuildCheckerRegistry(REGISTERED_CHECKERS).Ok?
    ensures var registry := BuildCheckerRegistry(REGISTERED_CHECKERS).value;
            && GetChecker(registry, Java21) == Err("unsupported type: JAVA_21")
            && forall r :: r != Java21 ==> GetChecker(registry, r) == Ok(LanguageOf(r))
  {
    var entries := CheckerEntries(REGISTERED_CHECKERS);
    ToMapSpec(entries);
    assert Keys(entries) == REGISTERED_CHECKERS;
    var registry := BuildCheckerRegistry(REGISTERED_CHECKERS).value;
    assert registry.Keys == set i | 0 <= i < |entries| :: entries[i].0;
    assert Java21 !in registry by {
      assert forall i :: 0 <= i < |entries| ==> entries[i].0 != Java21;
    }
    assert RuntimeName(Java21) == "JAVA_21";
    assert "unsupported type: " + "JAVA_21" == "unsupported type: JAVA_21";
    forall r | r != Java21
      ensures r in registry && registry[r] == LanguageOf(r)
    {
      var i := match r
        case Java17 => 0
        case Node18 => 1
        case Node20 => 2
        case Python310 => 3
        case _ => 4;
      assert entries[i].0 == r;
    }
  }

  /** Two checkers for the same runtime make the build fail on that runtime. */
  lemma DuplicateCheckerFails(runtimes: seq<Runtime>, i: nat, j: nat)
    requires i < j < |runtimes| && runtimes[i] == runtimes[j]
    ensures BuildCheckerRegistry(runtimes).Err?
  {
    var entries := CheckerEntries(runtimes);
    ToMapSpec(entries);
    assert Keys(entries)[i] == Keys(entries)[j];
  }
}
