/**
 * The per-language decision classifier (`Cyclomatic::compute`).
 *
 * Each grammar has its own vocabulary of node kinds; each datatype below
 * holds the kinds its language's classifier names, plus `Other` for every
 * remaining kind of that grammar. Kotlin, the preprocessor and the comment
 * pseudo-language have no classifier of their own, so their kinds are kept
 * as opaque identifiers.
 */
module CyclomaticClassifier {
  import opened CyclomaticStats

  datatype PythonKind = If | Elif | For | While | Except | With | Assert | And | Or | Else | Other
  datatype MozjsKind = If | For | While | Case | Catch | TernaryExpression | AMPAMP | PIPEPIPE | Other
  datatype JavascriptKind = If | For | While | Case | Catch | TernaryExpression | AMPAMP | PIPEPIPE | Other
  datatype TypescriptKind = If | For | While | Case | Catch | TernaryExpression | AMPAMP | PIPEPIPE | Other
  datatype TsxKind = If | For | While | Case | Catch | TernaryExpression | AMPAMP | PIPEPIPE | Other
  datatype JavaKind = If | For | While | Case | Catch | TernaryExpression | AMPAMP | PIPEPIPE | Other
  datatype CppKind = If | For | While | Case | Catch | ConditionalExpression | AMPAMP | PIPEPIPE | Other
  datatype RustKind = If | For | While | Loop | MatchArm | MatchArm2 | TryExpression | AMPAMP | PIPEPIPE | Other

  /**
   * A syntax node as the classifier sees it: its language and kind. For a
   * Python node, `loopElse` is the syntax tree's answer to the ancestor query
   * `has_ancestors(for/while statement, else clause)`; the walk that answers
   * it belongs to the parser layer and is not modelled.
   */
  datatype Node =
    | PythonNode(python: PythonKind, loopElse: bool)
    | MozjsNode(mozjs: MozjsKind)
    | JavascriptNode(javascript: JavascriptKind)
    | TypescriptNode(typescript: TypescriptKind)
    | TsxNode(tsx: TsxKind)
    | JavaNode(java: JavaKind)
    | CppNode(cpp: CppKind)
    | RustNode(rust: RustKind)
    | KotlinNode(kotlinId: nat)
    | PreprocNode(preprocId: nat)
    | CcommentNode(ccommentId: nat)

  predicate PythonDecision(k: PythonKind, loopElse: bool)
  {
    match k
    case If | Elif | For | While | Except | With | Assert | And | Or => true
    case Else => loopElse
    case Other => false
  }

  predicate MozjsDecision(k: MozjsKind)
  {
    match k
    case If | For | While | Case | Catch | TernaryExpression | AMPAMP | PIPEPIPE => true
    case Other => false
  }

  predicate JavascriptDecision(k: JavascriptKind)
  {
    match k
    case If | For | While | Case | Catch | TernaryExpression | AMPAMP | PIPEPIPE => true
    case Other => false
  }

  predicate TypescriptDecision(k: TypescriptKind)
  {
    match k
    case If | For | While | Case | Catch | TernaryExpression | AMPAMP | PIPEPIPE => true
    case Other => false
  }

  predicate TsxDecision(k: TsxKind)
  {
    match k
    case If | For | While | Case | Catch | TernaryExpression | AMPAMP | PIPEPIPE => true
    case Other => false
  }

  predicate JavaDecision(k: JavaKind)
  {
    match k
    case If | For | While | Case | Catch | TernaryExpression | AMPAMP | PIPEPIPE => true
    case Other => false
  }

  predicate CppDecision(k: CppKind)
  {
    match k
    case If | For | While | Case | Catch | ConditionalExpression | AMPAMP | PIPEPIPE => true
    case Other => false
  }

  predicate RustDecision(k: RustKind)
  {
    match k
    case If | For | While | Loop | MatchArm | MatchArm2 | TryExpression | AMPAMP | PIPEPIPE => true
    case Other => false
  }

  /** The trait dispatch: the node's own language decides. */
  predicate IsDecision(node: Node)
  {
    match node
    case PythonNode(k, loopElse) => PythonDecision(k, loopElse)
    case MozjsNode(k) => MozjsDecision(k)
    case JavascriptNode(k) => JavascriptDecision(k)
    case TypescriptNode(k) => TypescriptDecision(k)
    case TsxNode(k) => TsxDecision(k)
    case JavaNode(k) => JavaDecision(k)
    case CppNode(k) => CppDecision(k)
    case RustNode(k) => RustDecision(k)
    case KotlinNode(_) | PreprocNode(_) | CcommentNode(_) => false
  }

  /** The effect of `compute` on a record's value. */
  function Classified(s: StatsValue, node: Node): StatsValue
  {
    if IsDecision(node) then s.(cyclomatic := s.cyclomatic + 1) else s
  }

  /**
   * A classifier step adds exactly one path when the node is a decision and
   * none otherwise, and never touches the summary fields.
   */
  lemma ClassifiedStep(s: StatsValue, node: Node)
    ensures Classified(s, node).cyclomatic == s.cyclomatic + 1 <==> IsDecision(node)
    ensures Classified(s, node).cyclomatic == s.cyclomatic <==> !IsDecision(node)
    ensures Classified(s, node).sum == s.sum && Classified(s, node).n == s.n
    ensures Classified(s, node).max == s.max && Classified(s, node).min == s.min
  {
  }

  /** `compute`: adds one path to the enclosing space when `node` is a decision point. */
  method Compute(node: Node, stats: Stats)
    modifies stats
    ensures stats.Value() == Classified(old(stats.Value()), node)
    ensures stats.cyclomaticSum == old(stats.cyclomaticSum) && stats.n == old(stats.n)
    ensures stats.cyclomaticMax == old(stats.cyclomaticMax) && stats.cyclomaticMin == old(stats.cyclomaticMin)
  {
    if IsDecision(node) {
      stats.cyclomatic := stats.cyclomatic + 1;
    }
  }

  /** A classifier step keeps a space open. */
  lemma ClassifiedKeepsOpen(s: StatsValue, node: Node)
    requires Open(s)
    ensures Open(Classified(s, node))
  {
  }

  /**
   * Python: every listed kind counts; `else` counts exactly when the
   * ancestor query says it belongs to a `for` or `while`; nothing else counts.
   */
  lemma PythonClassifier(k: PythonKind, loopElse: bool)
    ensures IsDecision(PythonNode(k, loopElse)) <==> k != PythonKind.Other && (k == PythonKind.Else ==> loopElse)
  {
  }

  /** Every Python kind other than `else` is classified regardless of its ancestors. */
  lemma PythonContextFree(k: PythonKind, b1: bool, b2: bool)
    requires k != PythonKind.Else
    ensures IsDecision(PythonNode(k, b1)) == IsDecision(PythonNode(k, b2))
  {
  }

  /** Mozjs: exactly the eight listed kinds count. */
  lemma MozjsClassifier(k: MozjsKind)
    ensures IsDecision(MozjsNode(k)) <==> k != MozjsKind.Other
  {
  }

  /** JavaScript: exactly the eight listed kinds count. */
  lemma JavascriptClassifier(k: JavascriptKind)
    ensures IsDecision(JavascriptNode(k)) <==> k != JavascriptKind.Other
  {
  }

  /** TypeScript: exactly the eight listed kinds count. */
  lemma TypescriptClassifier(k: TypescriptKind)
    ensures IsDecision(TypescriptNode(k)) <==> k != TypescriptKind.Other
  {
  }

  /** TSX: exactly the eight listed kinds count. */
  lemma TsxClassifier(k: TsxKind)
    ensures IsDecision(TsxNode(k)) <==> k != TsxKind.Other
  {
  }

  /** Rust: exactly the nine listed kinds count, both match-arm representations among them. */
  lemma RustClassifier(k: RustKind)
    ensures IsDecision(RustNode(k)) <==> k != RustKind.Other
    ensures IsDecision(RustNode(RustKind.MatchArm)) && IsDecision(RustNode(RustKind.MatchArm2))
  {
  }

  /** C++: exactly the eight listed kinds count. */
  lemma CppClassifier(k: CppKind)
    ensures IsDecision(CppNode(k)) <==> k != CppKind.Other
  {
  }

  /** Java: exactly the eight listed kinds count. */
  lemma JavaClassifier(k: JavaKind)
    ensures IsDecision(JavaNode(k)) <==> k != JavaKind.Other
  {
  }

  /** Kotlin, preprocessor and comment nodes never count. */
  lemma NoOpLanguages(node: Node)
    requires node.KotlinNode? || node.PreprocNode? || node.CcommentNode?
    ensures !IsDecision(node)
    ensures Classified(DefaultValue(), node).cyclomatic == 1
  {
  }

  /** Renames a C++ kind to the JavaScript kind with the same role. */
  function CppAsJavascript(k: CppKind): JavascriptKind
  {
    match k
    case If => JavascriptKind.If
    case For => JavascriptKind.For
    case While => JavascriptKind.While
    case Case => JavascriptKind.Case
    case Catch => JavascriptKind.Catch
    case ConditionalExpression => JavascriptKind.TernaryExpression
    case AMPAMP => JavascriptKind.AMPAMP
    case PIPEPIPE => JavascriptKind.PIPEPIPE
    case Other => JavascriptKind.Other
  }

  /** C++ counts the same set as JavaScript, with the conditional expression as its ternary. */
  lemma CppMatchesJavascript(k: CppKind)
    ensures CppDecision(k) <==> JavascriptDecision(CppAsJavascript(k))
  {
  }
}
