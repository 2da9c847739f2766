# A model of the Simula-to-Java compiler's semantic core and runtime helpers

The system is a compiler from Simula 67 to Java. It comes with a runtime
library for the Java it generates and a source editor. This project models
its semantic core and the self-contained pieces around it in Dafny, and
proves what each operation promises.

**The scope graph.** Blocks, classes, procedures, sub-blocks and compound
statements are records in an arena (a `seq<Scope>` indexed by `nat`). The
links `declaredIn`, the resolved prefix class and the scope behind a
`HIDDEN` specification always point to an earlier index, so every chain is
finite and the prefix relation is acyclic. The compiler's global cursor
(the current scope and the current block level) is the `Compilation`
class, whose methods change the arena in place.

**Lookup and the declarations.** The model covers:

- identifier lookup outward along `declaredIn` and along prefix chains,
  honouring `HIDDEN` and `PROTECTED`;
- remote access and `withinScope`;
- the checking pass of each kind of declaration: block levels, label
  numbering and moves, external Java identifiers, and the binding of
  virtual specifications to their matches;
- the Java text the declarations emit: formal and complete parameter lists,
  `setPar` switches, the constructor's lines, and the code before and after
  `INNER`;
- the record a separately compiled class or procedure writes to its
  attribute file, read back unchanged.

**Types, parameters and expressions.** The model covers:

- the type lattice, `isConvertableTo` and the common type of two operands;
- the transmission-mode legality matrix of formal parameters;
- the code a procedure call emits for each actual, whether passed as it is,
  as a copy, or as a by-name thunk;
- variables with their arity and index checks;
- unary operations with constant folding.

**Statements and program modules.** `goto`, block statements and `switch`
are each checked once and then coded as lines of Java. A program module
chooses its kind from the first symbols of a compilation unit.

**The runtime.** The model covers:

- the DEC_Lib text procedures on text references (`_TXT`): a window of
  characters on a shared object, with a position `POS`; these procedures
  read it, change it in place, or build a new one;
- the head of a set, as a circular doubly linked list;
- the two command-line option parsers, with `NoneCheck`.

**The editor.** The editor's `Token` is modelled as a value with its
printed form, its style class and its equality.

Where a member returns an `Option`, a `Crash` value or a `fatal` flag,
Java's exceptions become explicit outcomes. In the coding of a call, `None`
stands for any end of the compilation: an internal error or a Java exception.
So does a failed `ASSERT` or `FATAL_ERROR` of the compiler in those members.
Elsewhere a `requires` excludes the case that throws; "## Left out" names
each such `requires` and the exception it stands for. Emitted Java is a returned
string or a sequence of lines. Characters are ASCII, and Java's
`equalsIgnoreCase` is compared character by character on ASCII letters.

## Model

| member | source | states |
|---|---|---|
| Types.MkRef | Simula/src/simula/compiler/utilities/Type.java:39-42 | a class-qualified REF type carries the class name, upper-cased, as its qualification, which then has no lower-case letter |
| Types.RefEqualityIgnoresCase | Simula/src/simula/compiler/utilities/Type.java:39-42 | two ref(C) types are equal exactly when their class names agree ignoring case |
| Types.GetRefIdent | Simula/src/simula/compiler/utilities/Type.java:44-51 | a qualification is returned exactly for a REF key that has one |
| Types.ArithmeticTypeConversion | Simula/src/simula/compiler/utilities/Type.java:168-185 | a result exists exactly when both types are arithmetic |
| Types.ArithmeticConversionIsJoin | Simula/src/simula/compiler/utilities/Type.java:168-185 | the result is the wider of the two types on INTEGER < REAL < LONG REAL, and is one of them |
| Types.ArithmeticConversionSymmetric | Simula/src/simula/compiler/utilities/Type.java:168-185 | the arithmetic conversion does not depend on the operand order |
| Types.ArithmeticConversionIdempotent | Simula/src/simula/compiler/utilities/Type.java:168-185 | converting a type with itself gives it back |
| Types.ToString | Simula/src/simula/compiler/utilities/Type.java:229-236 | exactly the reference types (among keys that are not identifiers) print as "Ref(", their qualification or "null", ")"; LONG REAL prints as "LONG REAL" and an identifier key as its name |
| Types.ToStringInjective | Simula/src/simula/compiler/utilities/Type.java:229-236 | two types that are not identifier keys, with upper-cased qualifications, print alike only when they are equal |
| Types.EdDefaultValue | Simula/src/simula/compiler/utilities/Type.java:187-199 | only a type whose key is an identifier has no default (null) |
| Types.DefaultIsNullExactlyForReferences | Simula/src/simula/compiler/utilities/Type.java:187-199 | a variable starts as Java null exactly for reference types, TEXT and LABEL |
| Types.JavaTypeClassIsBoxedJavaType | Simula/src/simula/compiler/utilities/Type.java:201-227 | the type class is the boxed form of the Java type, except for procedure and label quantities |
| Types.JavaTypeInjectiveOnValueTypes | Simula/src/simula/compiler/utilities/Type.java:201-214 | different arithmetic, Boolean and character types get different Java types |
| TypeChecking.MeaningClass | Simula/src/simula/compiler/utilities/Type.java:71-73 | a class is returned only when the meaning's declaration is a class declaration, and it is that declaration's scope |
| TypeChecking.RefClass | Simula/src/simula/compiler/utilities/Type.java:71-73 | the class a name resolves to from the current scope is a class declaration |
| TypeChecking.RefClassIsDeclaredOnChain | Simula/src/simula/compiler/utilities/Type.java:71-73 | that class is declared under that name, ignoring case, in a scope enclosing the current one |
| TypeChecking.IsSubReferenceOfAsWritten | Simula/src/simula/compiler/utilities/Type.java:131-146 | nothing is a sub-reference of a type without a qualification, and a type without a qualification is a sub-reference of every qualified type |
| TypeChecking.SubReferenceOutcome | Simula/src/simula/compiler/utilities/Type.java:131-146 | with both types qualified, the source throws exactly when `this` names a declaration that is not a class, when `other` names one that is not a block declaration, or when `this` names a declaration and `other` one that is not a class; an undefined `this` answers false whatever `other` names; otherwise its answer is the as-written one, and any error it reports is "Undefined variable" for one of the two qualifications and comes with the answer false |
| TypeChecking.CastOutcome | Simula/src/simula/compiler/utilities/Type.java:139-142 | the two casts to BlockDeclaration, the null test on `this`, then the two casts to ClassDeclaration, where a null `other` passes: None exactly in the throwing cases, otherwise isSubClassOf of the two classes |
| TypeChecking.CastOrderExample | Simula/src/simula/compiler/utilities/Type.java:139-142 | in a class M declaring a procedure P, ref(X) with X undefined against ref(P) answers false with "Undefined variable: X", and ref(P) against ref(X) throws |
| TypeChecking.CastFailureAnswersFalse | Simula/src/simula/compiler/utilities/Type.java:139-142 | where the source throws, both boolean forms of isSubReferenceOf answer false |
| TypeChecking.IsSubReferenceOf | Simula/src/simula/compiler/utilities/Type.java:131-146 | intended (see ## Findings): only a REF type is a sub-reference of anything, and nothing is a sub-reference of NONE |
| TypeChecking.IntegerIsSubReferenceAsWritten | Simula/src/simula/compiler/utilities/Type.java:131-146 | as written, INTEGER is a sub-reference of ref(A) and so directly assignable to it |
| TypeChecking.NonReferenceIsSubReferenceAsWritten | Simula/src/simula/compiler/utilities/Type.java:131-146 | as written, every type that is not a REF key (TEXT, INTEGER, REAL, BOOLEAN, CHARACTER, ...) is a sub-reference of every qualified reference; under the intended relation none is |
| TypeChecking.SubReferenceCases | Simula/src/simula/compiler/utilities/Type.java:129-146 | intended (see ## Findings): nothing is a sub-reference of NONE; NONE is a sub-reference of every qualified reference; two qualified references relate exactly as their classes; a non-reference type is a sub-reference of nothing |
| TypeChecking.SubReferenceAntisymmetric | Simula/src/simula/compiler/utilities/Type.java:131-146 | no two types are sub-references of each other |
| TypeChecking.IsConvertableToAsWritten | Simula/src/simula/compiler/utilities/Type.java:116-127 | a legal conversion needs a target; a value conversion is only between two arithmetic types; a reference conversion only from a qualified type |
| TypeChecking.IsConvertableTo | Simula/src/simula/compiler/utilities/Type.java:116-127 | intended (see ## Findings): a legal conversion needs a target; a value conversion is only between two arithmetic types; a reference conversion only between two different REF types |
| TypeChecking.ConvertableBasics | Simula/src/simula/compiler/utilities/Type.java:116-127 | a null target is illegal, equal types assign directly, two different arithmetic types need a value conversion |
| TypeChecking.ConvertRefCases | Simula/src/simula/compiler/utilities/Type.java:116-127 | between ref(C) and ref(D): direct iff equal or C is a subclass of D, a checked conversion iff D is a subclass of C, illegal for unrelated classes, never a value conversion |
| TypeChecking.NoConversionToReferenceFromValue | Simula/src/simula/compiler/utilities/Type.java:116-127 | intended (see ## Findings): a value of a non-reference type never converts to a qualified reference |
| TypeChecking.CommonRefType | Simula/src/simula/compiler/utilities/Type.java:148-152 | the common reference type is one of the two operands |
| TypeChecking.CommonRefTypeIsUpperBound | Simula/src/simula/compiler/utilities/Type.java:148-152 | the common reference type is one of the two, the super-reference whenever they are related, and then order-independent |
| TypeChecking.CommonTypeConversion | Simula/src/simula/compiler/utilities/Type.java:154-166 | intended (see ## Findings): without a common type "Incompatible types" is reported; a common type is one of the operands or an arithmetic type |
| TypeChecking.CommonTypeConversionAsWritten | Simula/src/simula/compiler/utilities/Type.java:154-166 | as written: without a common type "Incompatible types" is reported; a common type is one of the operands or an arithmetic type |
| TypeChecking.CommonTypeConversionCases | Simula/src/simula/compiler/utilities/Type.java:154-166 | intended (see ## Findings): equal types give that type; two arithmetic types the wider; two references the super-reference or an error; anything else an error and no type |
| TypeChecking.TextCommonWithRefAsWritten | Simula/src/simula/compiler/utilities/Type.java:154-166 | as written, TEXT against ref(A) gets the common type ref(A) and no error; as intended it is "Incompatible types" |
| TypeChecking.CommonTypeConversionAgreesOnRefs | Simula/src/simula/compiler/utilities/Type.java:154-166 | between two REF keys the as-written and the intended common type agree |
| TypeChecking.CommonTypeConversionSymmetric | Simula/src/simula/compiler/utilities/Type.java:154-166 | when no error is reported, the common type does not depend on the operand order |
| TypeChecking.QualOf | Simula/src/simula/compiler/utilities/Type.java:65-84 | the qualification found is a class declaration |
| TypeChecking.QualOfCases | Simula/src/simula/compiler/utilities/Type.java:65-84 | a qualified REF type gets a class exactly when its name means a class; otherwise the last error is "Illegal Type ... is not a Class" |
| TypeChecking.CheckedType.constructor | Simula/src/simula/compiler/utilities/Type.java:37-42 | a new type is unchecked and has no qualifying class |
| TypeChecking.CheckedType.DoChecking | Simula/src/simula/compiler/utilities/Type.java:65-84 | the first call sets the qualification and errors as QualOf says; later calls change nothing |
| TypeChecking.CheckedType.GetQual | Simula/src/simula/compiler/utilities/Type.java:29-32 | the qualification is read only once the type is checked |
| Scopes.EnclosingChain | Simula/src/simula/compiler/declaration/DeclarationScope.java:32 | the chain of scopes outward along declaredIn starts at the scope, is empty only for none, and stays in the arena |
| Scopes.PrefixChain | Simula/src/simula/compiler/declaration/ClassDeclaration.java:601-616 | every class on a class's prefix chain comes before it, so the chain is finite; it is empty exactly when the class has no prefix |
| Scopes.PrefixChainAcyclic | Simula/src/simula/compiler/declaration/ClassDeclaration.java:601-616 | a class is never on its own prefix chain |
| Scopes.PrefixChainTransitive | Simula/src/simula/compiler/declaration/ClassDeclaration.java:601-616 | the prefix chain of any class on the chain is the rest of the chain after it |
| Scopes.FirstNamed | Simula/src/simula/compiler/declaration/DeclarationScope.java:71-75 | the position found has the name, ignoring case, and no earlier one has it; none is found only when no element has it |
| Scopes.SearchNames | Simula/src/simula/compiler/declaration/DeclarationScope.java:71-75 | the for-each search with an early return finds FirstNamed |
| Scopes.FirstNamedAppend | Simula/src/simula/compiler/declaration/DeclarationScope.java:71-75 | searching two lists one after the other finds the first match of the first, else the first match of the second, offset by the first's length |
| Meanings.VisibleAttribute | Simula/src/simula/compiler/declaration/DeclarationScope.java:49-52 | an attribute found by the scope's own search binds the name in that scope; a connection block finds nothing |
| Meanings.FindMeaning | Simula/src/simula/compiler/declaration/DeclarationScope.java:57-65 | an error is reported exactly when nothing is found outside parsing, and it is the one "Undefined variable" message |
| Meanings.InnermostMeaningWins | Simula/src/simula/compiler/declaration/DeclarationScope.java:57-65 | the innermost scope on the enclosing chain that has the name gives the meaning, with no error |
| Meanings.NoMeaningWhenUndeclared | Simula/src/simula/compiler/declaration/DeclarationScope.java:57-65 | when no scope on the chain has the name, the meaning is empty and "Undefined variable" is reported once, except during parsing |
| Meanings.NoMeaningOnlyWhenUndeclared | Simula/src/simula/compiler/declaration/DeclarationScope.java:57-65 | the empty meaning comes back only when no scope on the chain has the name |
| Meanings.FoundMeaningBinds | Simula/src/simula/compiler/declaration/DeclarationScope.java:57-65 | a real meaning comes with no error and binds the name in a scope of the enclosing chain |
| DeclarationScopes.Compilation.constructor | Simula/src/simula/compiler/declaration/DeclarationScope.java:19 | compilation starts with no scopes, no current scope and block levels 0 |
| DeclarationScopes.FreshScopeFits | Simula/src/simula/compiler/declaration/DeclarationScope.java:29-35 | a new scope declared in an existing one keeps the arena well formed |
| DeclarationScopes.NewScope | Simula/src/simula/compiler/declaration/DeclarationScope.java:29-35 | the new scope is appended, declared in the current scope, one source block level deeper, and becomes the current scope; the arena stays well formed |
| DeclarationScopes.LevelChain | Simula/src/simula/compiler/declaration/DeclarationScope.java:40-44 | the scopes scopeID names start with the scope itself |
| DeclarationScopes.ScopeIDJoinsLevelChain | Simula/src/simula/compiler/declaration/DeclarationScope.java:40-44 | scopeID is the identifiers of the enclosing scopes on runtime levels above 1, outermost first, joined by '.' |
| DeclarationScopes.ScopeID | Simula/src/simula/compiler/declaration/DeclarationScope.java:40-44 | on runtime level 0 or 1 the identifier itself; every scope ID ends with the identifier |
| DeclarationScopes.FindLabelMeaning | Simula/src/simula/compiler/declaration/DeclarationScope.java:70-78 | a label found has the name, ignoring case, and is declared and found in a scope of the enclosing chain; none is found iff no scope on the chain has such a label |
| DeclarationScopes.InnermostLabelWins | Simula/src/simula/compiler/declaration/DeclarationScope.java:70-78 | the first matching label of the innermost scope that has one is the meaning |
| DeclarationScopes.ProcedureNamed | Simula/src/simula/compiler/declaration/DeclarationScope.java:83-93 | a scope found is a procedure on the enclosing chain with the name, ignoring case |
| DeclarationScopes.FindProcedure | Simula/src/simula/compiler/declaration/DeclarationScope.java:83-93 | the walk along declaredIn stops at the first scope with the name and yields it only if it is a procedure |
| DeclarationScopes.EnclosingChainNext | Simula/src/simula/compiler/declaration/DeclarationScope.java:90 | consecutive scopes on the enclosing chain are linked by declaredIn |
| DeclarationScopes.CtxPathDistinguishesLevels | Simula/src/simula/compiler/declaration/DeclarationScope.java:109-113 | a distance of zero or less is "(_CUR)", and different distances give different paths |
| DeclarationScopes.EdCTXDiff | Simula/src/simula/compiler/declaration/DeclarationScope.java:109-113 | the loop appends "._SL" once per level of distance |
| DeclarationScopes.CtxOfHasNoComma | Simula/src/simula/compiler/declaration/DeclarationScope.java:98-113 | a context expression is never empty and has no comma |
| DeclarationScopes.CtxOf | Simula/src/simula/compiler/declaration/DeclarationScope.java:98-113 | definition: CTX_ on runtime level 0, else the path up the level difference; CtxOfHasNoComma and CtxPathDistinguishesLevels state its properties |
| DeclarationScopes.EdCTX | Simula/src/simula/compiler/declaration/DeclarationScope.java:98-104 | "CTX_" for a scope on runtime level 0, else the static-link path across the difference of runtime levels |
| DeclarationScopes.ScopeChainJoinsIdentifiers | Simula/src/simula/compiler/declaration/DeclarationScope.java:118-122 | the scope chain is the identifiers of the enclosing chain, innermost first, joined by '.' |
| DeclarationScopes.EdScopeChain | Simula/src/simula/compiler/declaration/DeclarationScope.java:118-122 | the chain starts with the identifier, and is just the identifier exactly for an outermost scope |
| DeclarationScopes.NamingIdentifiersSnoc | Simula/src/simula/compiler/declaration/DeclarationScope.java:130-137 | a scope at the outer end adds its identifier exactly when it is a block declaration that is not standard |
| DeclarationScopes.EdJavaClassName | Simula/src/simula/compiler/declaration/DeclarationScope.java:127-140 | the walk gives the identifiers of the non-standard block declarations on the enclosing chain, outermost first, joined by '_', or null when there are none |
| DeclarationScopes.JavaClassName | Simula/src/simula/compiler/declaration/DeclarationScope.java:127-140 | definition: the naming identifiers of the enclosing chain, outermost first, joined by "_"; EdJavaClassName is proved against it |
| DeclarationScopes.NamingStep | Simula/src/simula/compiler/declaration/DeclarationScope.java:134-135 | one step of the walk puts a naming identifier and '_' in front of the name built so far |
| DeclarationLists.FindIndex | Simula/src/simula/compiler/declaration/DeclarationList.java:16-20 | the position found holds the identifier exactly (case-sensitive) and no earlier one does; none iff no element has it |
| DeclarationLists.AddResult | Simula/src/simula/compiler/declaration/DeclarationList.java:22-36 | add succeeds iff the identifier is not yet in the list; then the declaration is appended, otherwise the list is unchanged |
| DeclarationLists.AddKeepsDistinct | Simula/src/simula/compiler/declaration/DeclarationList.java:22-36 | add never introduces a duplicate identifier |
| DeclarationLists.AddAllDistinct | Simula/src/simula/compiler/declaration/DeclarationList.java:22-36 | after any sequence of adds the identifiers are pairwise distinct |
| DeclarationLists.AddAllExtends | Simula/src/simula/compiler/declaration/DeclarationList.java:34 | adds never move or remove what is already in the list |
| DeclarationLists.FirstDeclarationWins | Simula/src/simula/compiler/declaration/DeclarationList.java:22-36 | after a sequence of adds, find gives the first declaration added with an identifier |
| DeclarationLists.DeclarationList.constructor | Simula/src/simula/compiler/declaration/DeclarationList.java:12-14 | a new list has its name and no declarations, and so satisfies the distinct-identifiers invariant |
| DeclarationLists.DeclarationList.Find | Simula/src/simula/compiler/declaration/DeclarationList.java:16-20 | the loop returns the first declaration named exactly so, or null iff there is none |
| DeclarationLists.DeclarationList.Add | Simula/src/simula/compiler/declaration/DeclarationList.java:22-36 | a duplicate is refused with the warning "Multiple declarations with the same name: " and the identifier, the list unchanged; otherwise appended; distinctness is kept |
| Expressions.NamedVariable | Simula/src/simula/compiler/expression/UnaryOperation.java:37 | a variable made from a name prints as that name and has no type and no value |
| Texts.Txt.Chars | Simula/src/simula/runtime/_DEC_Lib.java:109-110 | edText gives exactly LENGTH characters of the text's window |
| Texts.Txt.On | Simula/src/simula/runtime/_DEC_Lib.java:131 | a text is a window START..START+LENGTH on its object, positioned at its start |
| Texts.Make | Simula/src/simula/runtime/_DEC_Lib.java:310 | a new writable text on a fresh object holds exactly the given characters |
| Texts.SubText | Simula/src/simula/runtime/_DEC_Lib.java:289 | sub(t, i, n) is notext iff n = 0, else a text on the same object holding characters i..i+n-1 of t |
| Texts.SliceOfSlice | Simula/src/simula/runtime/_DEC_Lib.java:289 | a window of a window is the corresponding window of the object |
| Parameters.ExternalIdentifier | Simula/src/simula/compiler/declaration/Parameter.java:68-74 | the Java name of a formal starts with "p" |
| Parameters.ExternalIdentifierInjective | Simula/src/simula/compiler/declaration/Parameter.java:68-74 | different parameters, or one identifier on different prefix levels, get different Java names |
| Parameters.LegalModeMatchesTable | Simula/src/simula/compiler/declaration/Parameter.java:94-135 | a formal is illegal exactly when given mode value where the documented table marks value illegal |
| Parameters.LegalMode | Simula/src/simula/compiler/declaration/Parameter.java:116-135 | definition: legalTransmitionMode's verdict, branch by branch; LegalModeMatchesTable proves it is the table |
| Parameters.Classify | Simula/src/simula/compiler/declaration/Parameter.java:94-115 | definition: the row of the table a formal belongs to |
| Parameters.ParamJavaType | Simula/src/simula/compiler/declaration/Parameter.java:137-156 | definition: the Java type of each kind of formal under each mode |
| Parameters.ParamJavaCode | Simula/src/simula/compiler/declaration/Parameter.java:158-160 | definition: the Java type, a space and the Java name |
| Parameters.ValueIllegalForProceduresAndLabels | Simula/src/simula/compiler/declaration/Parameter.java:128-131 | procedures and labels can never be passed by value |
| Parameters.ValueIllegalForReferences | Simula/src/simula/compiler/declaration/Parameter.java:120-127 | simple and array reference formals other than TEXT cannot be passed by value |
| Parameters.SimpleTextLegalUnderEveryMode | Simula/src/simula/compiler/declaration/Parameter.java:121 | a simple TEXT formal is legal under every mode and keeps its mode |
| Parameters.SimpleValueTypeDefaultsToValue | Simula/src/simula/compiler/declaration/Parameter.java:123 | a simple value-type formal with no mode gets mode value |
| Parameters.ByNameIffThunk | Simula/src/simula/compiler/declaration/Parameter.java:137-156 | a formal is passed as a NAME$ thunk exactly when it is by name |
| Parameters.ParamEqualsIsEquivalence | Simula/src/simula/compiler/declaration/Parameter.java:45-55 | on typed formals equality is an equivalence that ignores the identifier and the Java name |
| Parameters.ParamEquals | Simula/src/simula/compiler/declaration/Parameter.java:45-55 | the comparison throws exactly when either formal has no type |
| Parameters.WriteExternal | Simula/src/simula/compiler/declaration/Parameter.java:177-185 | a parameter is written as five objects |
| Parameters.ReadExternal | Simula/src/simula/compiler/declaration/Parameter.java:187-195 | a successful read consumes exactly five objects |
| Parameters.ExternalRoundTrip | Simula/src/simula/compiler/declaration/Parameter.java:177-195 | reading back what was written gives every field but nDim, and stops right after the parameter |
| Parameters.ResetDims | Simula/src/simula/compiler/declaration/Parameter.java:25 | a read parameter has every written field and the default nDim -1 |
| Parameters.ExternalListRoundTrip | Simula/src/simula/compiler/declaration/Parameter.java:177-195 | a list of parameters written one after another reads back as the same list, nDim reset |
| Parameters.Parameter.constructor | Simula/src/simula/compiler/declaration/Parameter.java:34-38 | a new parameter has its identifier, type and kind, no mode, no Java name, nDim -1 |
| Parameters.Parameter.SetMode | Simula/src/simula/compiler/declaration/Parameter.java:57-61 | the mode is set; an error naming the old mode is reported exactly when one was already given |
| Parameters.Parameter.SetTypeAndKind | Simula/src/simula/compiler/declaration/Parameter.java:63-66 | the type and the kind are replaced |
| Parameters.Parameter.SetExternalIdentifier | Simula/src/simula/compiler/declaration/Parameter.java:68-74 | the Java name becomes ExternalIdentifier of the identifier and prefix level |
| Parameters.Parameter.LegalTransmissionMode | Simula/src/simula/compiler/declaration/Parameter.java:116-135 | the verdict is LegalMode of the mode given, and a simple value-type formal without a mode gets mode value |
| Parameters.Parameter.DoChecking | Simula/src/simula/compiler/declaration/Parameter.java:76-92 | once only: a missing kind is reported and replaced by a simple INTEGER, the mode is defaulted, and an illegal mode adds exactly one error |
| BlockDeclarations.VirtualOf | Simula/src/simula/compiler/declaration/BlockDeclaration.java:54-60 | a virtual found is named so, ignoring case, is the first of that name in its list, and lies in the block or on its prefix chain |
| BlockDeclarations.FindVirtual | Simula/src/simula/compiler/declaration/BlockDeclaration.java:54-60 | the own-list loop and the recursive call on the prefix find VirtualOf |
| BlockDeclarations.NoVirtualNamedIff | Simula/src/simula/compiler/declaration/BlockDeclaration.java:55-56 | the own-list loop finds nothing exactly when no virtual of the list has the name |
| BlockDeclarations.VirtualOfNone | Simula/src/simula/compiler/declaration/BlockDeclaration.java:54-60 | nothing is found iff neither the block nor any class on its prefix chain has a virtual of that name |
| BlockDeclarations.VirtualOfIsFirst | Simula/src/simula/compiler/declaration/BlockDeclaration.java:54-60 | the virtual found is in the first scope along the prefix chain that has one of that name |
| BlockDeclarations.BindVirtual | Simula/src/simula/compiler/declaration/BlockDeclaration.java:415-421 | binding a declaration to a virtual keeps the arena well formed and changes only virtual lists |
| BlockDeclarations.BindVirtualBound | Simula/src/simula/compiler/declaration/BlockDeclaration.java:413-420 | the binding changes the virtual lists as VirtualBound says: nothing without a virtual, the match set in place for a virtual of the declaring scope, else a new virtual with the match appended to the declaring scope; every other virtual list is unchanged |
| BlockDeclarations.BindVirtualOverrides | Simula/src/simula/compiler/declaration/BlockDeclaration.java:415-421 | after binding, findVirtual from the declaring scope yields the virtual the declaration matches, and that virtual has it as its match |
| BlockDeclarations.Classified | Simula/src/simula/compiler/declaration/BlockDeclaration.java:142-156 | a program keeps its kind; otherwise the block is a prefixed block iff it has a prefix (named after the source and line, which is also its external identifier), a sub-block iff it has declarations, else a compound statement |
| BlockDeclarations.MaybeBlockEnd | Simula/src/simula/compiler/declaration/BlockDeclaration.java:122-181 | the end of parseMaybeBlock keeps the arena well formed |
| BlockDeclarations.MaybeBlockEndKeepsLabelsInPlace | Simula/src/simula/compiler/declaration/BlockDeclaration.java:157 | a block that is not a compound statement with labels leaves every label list unchanged |
| BlockDeclarations.MaybeBlockEndMovesLabels | Simula/src/simula/compiler/declaration/BlockDeclaration.java:157-172 | a compound statement's labels are appended to the nearest enclosing scope with declarations and its own list is emptied; the walk fails iff there is no such scope |
| BlockDeclarations.SameWalk | Simula/src/simula/compiler/declaration/BlockDeclaration.java:163-164 | the walk never looks at the block itself, so classifying the block first does not change where it stops |
| BlockDeclarations.MaybeBlockEndKeepsLabels | Simula/src/simula/compiler/declaration/BlockDeclaration.java:157-172 | parseMaybeBlock never loses or duplicates a label |
| BlockDeclarations.ParseMaybeBlockEnd | Simula/src/simula/compiler/declaration/BlockDeclaration.java:142-180 | the arena becomes MaybeBlockEnd; on a normal end the current scope becomes the enclosing scope |
| BlockDeclarations.CloseBlock | Simula/src/simula/compiler/declaration/BlockDeclaration.java:142-172 | the classification and the label walk compute MaybeBlockEnd |
| BlockDeclarations.SetExternalIdentifiers | Simula/src/simula/compiler/declaration/BlockDeclaration.java:404 | every parameter gets the Java name for the block's prefix level; nothing else changes |
| BlockDeclarations.BlockExternalIdent | Simula/src/simula/compiler/declaration/BlockDeclaration.java:384-387 | a method block is named by its identifier; any other keeps its external identifier, or gets edJavaClassName |
| BlockDeclarations.VirtualOfFrame | Simula/src/simula/compiler/declaration/BlockDeclaration.java:54-60 | findVirtual depends only on the virtual lists and the prefixes |
| BlockDeclarations.BlockDoChecking | Simula/src/simula/compiler/declaration/BlockDeclaration.java:378-434 | once only: the block gets its external identifier, block level and parameter names, its labels are numbered 1..n with its prefix level, it is bound to the virtual of its name in the enclosing scope, and the current scope and block level are restored |
| BlockDeclarations.CheckScopes | Simula/src/simula/compiler/declaration/BlockDeclaration.java:384-430 | the block is entered; label j gets index j+1, the prefix level and the virtual findVirtual gives in the arena of its own iteration, and binds it (match set in place or a Virtual(label) appended) with all other virtual lists unchanged; then the block binds the virtual of its name in the enclosing scope; no other label or field changes (CheckedFrom) |
| BlockDeclarations.EnterAndNumber | Simula/src/simula/compiler/declaration/BlockDeclaration.java:384-422 | the block is entered and its labels numbered in list order, each with the virtual findVirtual gives in the arena left by the previous label, each step binding as LabelStep says; other scopes keep their labels |
| BlockDeclarations.BindBlock | Simula/src/simula/compiler/declaration/BlockDeclaration.java:424-430 | the block's virtual is the one findVirtual yields from the enclosing scope afterwards, and it has the block as its match |
| BlockDeclarations.BindBlockVirtual | Simula/src/simula/compiler/declaration/BlockDeclaration.java:424-430 | the block's binding survives the final update of the block |
| BlockDeclarations.EnterBlock | Simula/src/simula/compiler/declaration/BlockDeclaration.java:384-404 | the external identifier, the block level (one deeper unless a compound statement) and the parameters' Java names are set |
| BlockDeclarations.BindLabels | Simula/src/simula/compiler/declaration/BlockDeclaration.java:409-422 | label j gets index j+1, the prefix level and myVirtual = findVirtual in the arena of iteration j, and iteration j changes the virtual lists as VirtualBound says for that label; only virtual lists and this block's labels change |
| BlockDeclarations.LabelStep | Simula/src/simula/compiler/declaration/BlockDeclaration.java:411-421 | one label is numbered and gets myVirtual = findVirtual for its name; that virtual gets the label as its match if it is declared in the label's scope, else a Virtual(label) is appended to that scope's list; every other virtual list is unchanged |
| BlockDeclarations.LabelBindingOverrides | Simula/src/simula/compiler/declaration/BlockDeclaration.java:411-421 | a label declared in its block that has a visible virtual of its name overrides it: findVirtual from the block then yields a virtual of that name matched by the label |
| BlockDeclarations.BlockFormals | Simula/src/simula/compiler/declaration/BlockDeclaration.java:888-896 | one formal per chained parameter |
| BlockDeclarations.BlockFormalsAt | Simula/src/simula/compiler/declaration/BlockDeclaration.java:889-895 | formal k is "<java type> <identifier>" for a method and "<java type> s<external name>" for a constructor |
| BlockDeclarations.BlockEdFormalParameterList | Simula/src/simula/compiler/declaration/BlockDeclaration.java:884-899 | the text is "(", the static link for a constructor, the formals of the parameters along the prefix chain with commas between items only, then ") {" |
| BlockDeclarations.BlockFormalsText | Simula/src/simula/compiler/declaration/BlockDeclaration.java:885-898 | the loop with its withparams flag writes that text |
| BlockDeclarations.CommaStep | Simula/src/simula/compiler/declaration/BlockDeclaration.java:889 | a comma is written only when an item precedes |
| BlockDeclarations.BlockFormalsSplit | Simula/src/simula/compiler/declaration/BlockDeclaration.java:884-899 | splitting the list at its commas gives back the static link and one formal per parameter, in order |
| Prefixes.RealChain | Simula/src/simula/compiler/declaration/ClassDeclaration.java:405-411 | the class followed by its real prefixes, each earlier in the arena |
| Prefixes.PrefixLevelCountsRealPrefixes | Simula/src/simula/compiler/declaration/ClassDeclaration.java:405-411 | the prefix level is the number of real prefixes above the class |
| Prefixes.PrefixLevel | Simula/src/simula/compiler/declaration/ClassDeclaration.java:405-411 | the level is 0 exactly for a class without a real prefix |
| Prefixes.PrefixLevelWithoutRoot | Simula/src/simula/compiler/declaration/ClassDeclaration.java:405-411 | when no class on the prefix chain is the root, the prefix level is the length of the prefix chain |
| Prefixes.PrefixParametersHaveDistinctExternalNames | Simula/src/simula/compiler/declaration/ClassDeclaration.java:405-411 | a class with a real prefix is one level above it, so its parameters' Java names never clash with its prefix's |
| Prefixes.SubClassIrreflexive | Simula/src/simula/compiler/declaration/ClassDeclaration.java:319-325 | no class is a subclass of itself |
| Prefixes.SubClassTransitive | Simula/src/simula/compiler/declaration/ClassDeclaration.java:319-325 | a subclass of a subclass is a subclass |
| Prefixes.IsSubClassOf | Simula/src/simula/compiler/declaration/ClassDeclaration.java:319-325 | the do-while loop answers true exactly when the other class is on the strict prefix chain |
| Prefixes.SubClassOf | Simula/src/simula/compiler/declaration/ClassDeclaration.java:319-325 | definition: the other class is on the strict prefix chain; SubClassIrreflexive and SubClassTransitive state its order |
| Prefixes.SubClassExample | Simula/src/simula/compiler/declaration/ClassDeclaration.java:310-318 | for A, B prefixed by A and C prefixed by B: C is a subclass of A and B, B of A, and not the other way round |
| Prefixes.ChainParametersOwnLast | Simula/src/simula/compiler/declaration/ClassDeclaration.java:659-692 | a class's own parameters close the chained list |
| Prefixes.ChainParametersRootFirst | Simula/src/simula/compiler/declaration/ClassDeclaration.java:659-692 | the chained parameters are the parameter lists along the prefix chain, outermost prefix first |
| Prefixes.ClassParameterIterator.constructor | Simula/src/simula/compiler/declaration/ClassDeclaration.java:666-670 | a new iterator has the prefix's chained parameters, then the own ones, still to visit |
| Prefixes.ClassParameterIterator.HasNext | Simula/src/simula/compiler/declaration/ClassDeclaration.java:673-679 | there is a next parameter exactly when some remain; an exhausted prefix iterator is dropped |
| Prefixes.ClassParameterIterator.Next | Simula/src/simula/compiler/declaration/ClassDeclaration.java:682-686 | next gives the first remaining parameter and removes it, or null when none remain |
| Prefixes.CollectChainParameters | Simula/src/simula/compiler/declaration/ClassDeclaration.java:659-692 | a for-each loop over a fresh iterator visits the chained parameters in order |
| Prefixes.ChainParameters | Simula/src/simula/compiler/declaration/ClassDeclaration.java:659-692 | without a prefix a class has its own parameters, and every own parameter is in the chained list |
| Prefixes.Drain | Simula/src/simula/compiler/declaration/ClassDeclaration.java:659-692 | calling next while hasNext holds gives every remaining parameter in order |
| Prefixes.SpecifiedNamesAt | Simula/src/simula/compiler/declaration/ClassDeclaration.java:917 | each argument is "s" and the parameter's Java name |
| Prefixes.EdCompleteParameterList | Simula/src/simula/compiler/declaration/ClassDeclaration.java:913-920 | the text is "(staticLink", then ",s<name>" per chained parameter, then ");" |
| Prefixes.EdSpecifiedList | Simula/src/simula/compiler/declaration/ClassDeclaration.java:914-919 | the loop over the iterator writes that text |
| Prefixes.CompleteParameterListEntries | Simula/src/simula/compiler/declaration/ClassDeclaration.java:913-920 | splitting the argument list at its commas gives back the static link and one entry per chained parameter, in order |
| LabelMoves.EnclosingChainBelow | Simula/src/simula/compiler/declaration/BlockDeclaration.java:163-164 | the walk outward only meets the starting scope and scopes before it |
| LabelMoves.SkipOutward | Simula/src/simula/compiler/declaration/BlockDeclaration.java:163-164 | the scope the walk stops at is on the enclosing chain and is not skipped |
| LabelMoves.SkipOutwardIsNearest | Simula/src/simula/compiler/declaration/BlockDeclaration.java:163-164 | every scope the walk passes before stopping is skipped, and when it finds nothing every scope on the chain is skipped |
| LabelMoves.WalkOutward | Simula/src/simula/compiler/declaration/BlockDeclaration.java:163-164 | the while loop computes SkipOutward |
| LabelMoves.MovedLabels | Simula/src/simula/compiler/declaration/BlockDeclaration.java:166-171 | the move keeps the arena well formed |
| LabelMoves.LabelBagUpdate | Simula/src/simula/compiler/declaration/BlockDeclaration.java:166-171 | replacing one scope changes the arena's labels by exactly that scope's labels |
| LabelMoves.MovedLabelsEffect | Simula/src/simula/compiler/declaration/BlockDeclaration.java:166-171 | the target gets the block's labels appended in order, the block's list is emptied, and no other scope changes its labels |
| LabelMoves.MovedLabelsKeepsAll | Simula/src/simula/compiler/declaration/BlockDeclaration.java:166-171 | no label is lost or duplicated by the move |
| LabelMoves.MoveLabels | Simula/src/simula/compiler/declaration/BlockDeclaration.java:166-171 | the add loop and the clear compute MovedLabels |
| Heads.Linkage.Head | Simula/src/simula/runtime/_Head.java:56-59 | a new head has no members and SUC and PRED are the head itself |
| Heads.Linkage.Suc | Simula/src/simula/runtime/_Head.java:75 | suc gives the successor, or none when the successor is the head |
| Heads.Linkage.Pred | Simula/src/simula/runtime/_Head.java:85 | pred gives the predecessor, or none when the predecessor is the head |
| Heads.Linkage.First | Simula/src/simula/runtime/_Head.java:74-76 | first is the first member, none for an empty set |
| Heads.Linkage.Last | Simula/src/simula/runtime/_Head.java:84-86 | last is the last member, none for an empty set |
| Heads.Linkage.Empty | Simula/src/simula/runtime/_Head.java:94-96 | empty holds exactly when the set has no members |
| Heads.Linkage.Cardinal | Simula/src/simula/runtime/_Head.java:103-111 | the loop from first along suc counts exactly the members |
| Heads.Linkage.Out | Simula/src/simula/runtime/_Head.java:117-118 | taking out the first member leaves the rest of the set circular and the link in no set |
| Heads.Linkage.Clear | Simula/src/simula/runtime/_Head.java:116-120 | clear empties the set and takes every former member out |
| MaybeBlocks.CreateMaybeBlock | Simula/src/simula/compiler/declaration/MaybeBlockDeclaration.java:41-47 | the main program block is a new scope named after the source with '$' appended, of kind SimulaProgram, opened in the current scope, which it becomes |
| MaybeBlocks.MaybeClassified | Simula/src/simula/compiler/declaration/MaybeBlockDeclaration.java:79-89 | a program keeps its kind and name; any other block becomes a sub-block iff it has declarations, else a compound statement, renamed after its kind and line |
| MaybeBlocks.AsWrittenTargetIsDeclaredIn | Simula/src/simula/compiler/declaration/MaybeBlockDeclaration.java:106-109 | as written, the loop guard never holds, so the labels always go to the block's immediate enclosing scope |
| MaybeBlocks.ConnectionExample | Simula/src/simula/compiler/declaration/MaybeBlockDeclaration.java:98-114 | a sub-block with a declaration, a connection block in it, and a compound statement with a label in that, is a well-formed arena |
| MaybeBlocks.AsWrittenMissesConnectionBlock | Simula/src/simula/compiler/declaration/MaybeBlockDeclaration.java:106-109 | in that program the walk as written gives the label to the connection block, which declares nothing, while the walk the comment describes reaches the sub-block |
| MaybeBlocks.MoveTarget | Simula/src/simula/compiler/declaration/MaybeBlockDeclaration.java:99-109 | intended (see ## Findings): the target is an enclosing scope before the block that is not a declaration-free compound statement or connection block |
| MaybeBlocks.LabelsMovedOut | Simula/src/simula/compiler/declaration/MaybeBlockDeclaration.java:98-114 | intended (see ## Findings): the move keeps the arena well formed |
| MaybeBlocks.MoveTargetIsNearest | Simula/src/simula/compiler/declaration/MaybeBlockDeclaration.java:98-114 | intended (see ## Findings): the target is the nearest enclosing scope that is not a declaration-free compound statement or connection block |
| MaybeBlocks.LabelsMovedOutEffect | Simula/src/simula/compiler/declaration/MaybeBlockDeclaration.java:111-112 | the block's labels are appended in order to the target's list and the block's list is emptied |
| MaybeBlocks.LabelsMovedOutKeepsAll | Simula/src/simula/compiler/declaration/MaybeBlockDeclaration.java:111-112 | no label is lost or duplicated |
| MaybeBlocks.MoveLabelsFrom | Simula/src/simula/compiler/declaration/MaybeBlockDeclaration.java:98-114 | intended (see ## Findings): the walk and the two loops compute LabelsMovedOut |
| MaybeBlocks.MaybeBlockParsed | Simula/src/simula/compiler/declaration/MaybeBlockDeclaration.java:79-89 | intended (see ## Findings): after parsing the block has the kind and name MaybeClassified gives, and the arena is well formed |
| MaybeBlocks.MaybeBlockParsedKeepsLabels | Simula/src/simula/compiler/declaration/MaybeBlockDeclaration.java:86-87 | a block that is not a compound statement with labels leaves every label list unchanged |
| MaybeBlocks.MaybeBlockParsedMoves | Simula/src/simula/compiler/declaration/MaybeBlockDeclaration.java:86-87 | intended (see ## Findings): a compound statement with labels hands them to its move target, empties its own list, and loses none |
| MaybeBlocks.SameTarget | Simula/src/simula/compiler/declaration/MaybeBlockDeclaration.java:84-87 | classifying the block does not change where its labels go |
| MaybeBlocks.ParsedCompoundIsCodable | Simula/src/simula/compiler/declaration/MaybeBlockDeclaration.java:174-175 | every compound statement parseMaybeBlock leaves behind has no declarations and no labels, as its coding asserts |
| MaybeBlocks.ParseMaybeBlock | Simula/src/simula/compiler/declaration/MaybeBlockDeclaration.java:67-95 | intended (see ## Findings): the arena becomes MaybeBlockParsed and the current scope the enclosing scope |
| MaybeBlocks.MaybeChecked | Simula/src/simula/compiler/declaration/MaybeBlockDeclaration.java:119-138 | an unchecked block gets a Java class name unless it has an external identifier and is one level deeper unless a compound statement; no other scope changes |
| MaybeBlocks.MaybeCheckedIdempotent | Simula/src/simula/compiler/declaration/MaybeBlockDeclaration.java:120 | checking a block twice is checking it once, at whatever level |
| MaybeBlocks.MaybeBlockDoChecking | Simula/src/simula/compiler/declaration/MaybeBlockDeclaration.java:119-138 | the arena becomes MaybeChecked and the current scope and block level are restored |
| MaybeBlocks.MaybeVisibleAttribute | Simula/src/simula/compiler/declaration/MaybeBlockDeclaration.java:143-153 | a meaning found is a declaration or label of the block named so, ignoring case, declared and found in the block |
| MaybeBlocks.MaybeVisibleAttributeOrder | Simula/src/simula/compiler/declaration/MaybeBlockDeclaration.java:143-153 | nothing is found iff neither list has the name; a label only when no declaration has it; the first match wins |
| MaybeBlocks.FindMaybeVisibleAttribute | Simula/src/simula/compiler/declaration/MaybeBlockDeclaration.java:146-152 | the two loops with early returns compute MaybeVisibleAttribute |
| MaybeBlocks.ConstructorLines | Simula/src/simula/compiler/declaration/MaybeBlockDeclaration.java:227-237 | the constructor is its head, the super call, BBLK, BPRG for the main program only, the declarations' code and a closing brace |
| MaybeBlocks.BprgOnlyForProgram | Simula/src/simula/compiler/declaration/MaybeBlockDeclaration.java:232 | the constructor calls BPRG exactly when the block is the main program |
| MaybeBlocks.CompoundStatementCode | Simula/src/simula/compiler/declaration/MaybeBlockDeclaration.java:170-183 | a compound statement codes as its statements between braces, exactly when it has no declarations and no labels |
| ProcedureDeclarations.ParamAdded | Simula/src/simula/compiler/declaration/ProcedureDeclaration.java:78-85 | intended (see ## Findings): a parameter whose name is already used, ignoring case, is rejected with an error naming it and the list is unchanged; any other is appended |
| ProcedureDeclarations.ParamAddedKeepsDistinct | Simula/src/simula/compiler/declaration/ProcedureDeclaration.java:78-85 | the parameter names stay pairwise distinct, ignoring case |
| ProcedureDeclarations.AddParameter | Simula/src/simula/compiler/declaration/ProcedureDeclaration.java:78-85 | intended (see ## Findings): the search loop and append change only the procedure's parameter list, as ParamAdded says |
| ProcedureDeclarations.DuplicateMessageAsWrittenNamesProcedure | Simula/src/simula/compiler/declaration/ProcedureDeclaration.java:81 | as written, the duplicate-parameter error names the procedure, not the parameter |
| ProcedureDeclarations.ProcVisibleAttribute | Simula/src/simula/compiler/declaration/ProcedureDeclaration.java:132-145 | a found attribute is a declaration, parameter or label of the procedure with that name (ignoring case), declared and found in the procedure, not behind HIDDEN |
| ProcedureDeclarations.ProcVisibleAttributeOrder | Simula/src/simula/compiler/declaration/ProcedureDeclaration.java:135-144 | nothing is found iff no list has the name; declarations come before parameters, parameters before labels |
| ProcedureDeclarations.FindProcVisibleAttribute | Simula/src/simula/compiler/declaration/ProcedureDeclaration.java:132-145 | the three search loops compute ProcVisibleAttribute |
| ProcedureDeclarations.ProcExternalIdent | Simula/src/simula/compiler/declaration/ProcedureDeclaration.java:92-95 | a procedure coded as a Java method is named by its identifier; any other keeps its external identifier, or gets edJavaClassName |
| ProcedureDeclarations.CheckExternalIdent | Simula/src/simula/compiler/declaration/ProcedureDeclaration.java:92-95 | the three `if`s and the trailing `else if` compute ProcExternalIdent |
| ProcedureDeclarations.ProcChecked | Simula/src/simula/compiler/declaration/ProcedureDeclaration.java:89-127 | checking keeps the arena well formed and marks the procedure checked |
| ProcedureDeclarations.ProcCheckedIdempotent | Simula/src/simula/compiler/declaration/ProcedureDeclaration.java:90 | a second doChecking changes nothing |
| ProcedureDeclarations.ProcCheckedOwnFields | Simula/src/simula/compiler/declaration/ProcedureDeclaration.java:92-109 | the procedure is one block level deeper, gets its external identifier, and for a plain procedure each parameter gets "p$<id>" |
| ProcedureDeclarations.ProcCheckedRegistersMatch | Simula/src/simula/compiler/declaration/ProcedureDeclaration.java:114-123 | a matching virtual appends exactly one match to the enclosing class; the specification gets a default match iff that class specifies it; no other scope changes |
| ProcedureDeclarations.ProcCheckedWithoutSpec | Simula/src/simula/compiler/declaration/ProcedureDeclaration.java:114 | without a virtual specification, no other scope changes |
| ProcedureDeclarations.ProcDoChecking | Simula/src/simula/compiler/declaration/ProcedureDeclaration.java:89-127 | the arena becomes ProcChecked; the current scope becomes the enclosing scope and the block level is restored |
| ProcedureDeclarations.RegisterMatch | Simula/src/simula/compiler/declaration/ProcedureDeclaration.java:117-121 | the match is appended to the class and the default match set, as MatchRegistered says |
| ProcedureDeclarations.ProcEdFormalParameterList | Simula/src/simula/compiler/declaration/ProcedureDeclaration.java:191-212 | the text is "(", the static link when asked for, the formals in order with commas between items only, then ") {" |
| ProcedureDeclarations.ProcFormalsSplit | Simula/src/simula/compiler/declaration/ProcedureDeclaration.java:196-209 | splitting the list at its commas gives back the static link and one formal per parameter, in order |
| ProcedureDeclarations.CopyOnlyForArrayByValue | Simula/src/simula/compiler/declaration/ProcedureDeclaration.java:288-299 | a value ends in ".COPY()" iff the parameter is an array passed by value |
| ProcedureDeclarations.PrepareFormalCases | Simula/src/simula/compiler/declaration/ProcedureDeclaration.java:280-311 | one case per parameter, numbered 0..n-1 in list order, then the default case throwing "Wrong number of parameters" |
| ProcedureDeclarations.CodePrepareFormal | Simula/src/simula/compiler/declaration/ProcedureDeclaration.java:280-311 | the loop numbering the cases with `npar` emits PrepareFormalLines |
| ProcedureDeclarations.ProcExternalRoundTrip | Simula/src/simula/compiler/declaration/ProcedureDeclaration.java:382-412 | readExternal gives back every field writeExternal writes, as a procedure in the given scope |
| ProcedureDeclarations.ProcWriteExternal | Simula/src/simula/compiler/declaration/ProcedureDeclaration.java:382-394 | definition: the fields written to the attribute file, in order; ProcExternalRoundTrip reads them back |
| ProcedureDeclarations.ProcReadExternal | Simula/src/simula/compiler/declaration/ProcedureDeclaration.java:398-412 | definition: a procedure declaration filled from the fields in the order written; ProcExternalRoundTrip is the round trip |
| ProcedureDeclarations.ProcOwnChecked | Simula/src/simula/compiler/declaration/ProcedureDeclaration.java:92-123 | the procedure's own record after checking fits the arena: its links still point to earlier scopes |
| ProcedureDeclarations.CheckOwn | Simula/src/simula/compiler/declaration/ProcedureDeclaration.java:92-123 | the procedure's external identifier, block level, parameter identifiers and virtual match position are set as ProcOwnChecked says |
| ProcedureDeclarations.MatchRegistered | Simula/src/simula/compiler/declaration/ProcedureDeclaration.java:117-121 | appending a match to a class and marking the specification's default match keeps the arena well formed and its size |
| ProcedureDeclarations.CaseLines | Simula/src/simula/compiler/declaration/ProcedureDeclaration.java:288-299 | one case line per parameter |
| ClassDeclarations.SearchHiddenList | Simula/src/simula/compiler/declaration/ClassDeclaration.java:588-591 | the first HIDDEN specification of the name, ignoring case; None exactly when none has it |
| ClassDeclarations.SearchProtectedList | Simula/src/simula/compiler/declaration/ClassDeclaration.java:523-526 | the first PROTECTED specification of the name, ignoring case; None exactly when none has it |
| ClassDeclarations.SearchVirtualSpecList | Simula/src/simula/compiler/declaration/ClassDeclaration.java:393-396 | the first virtual specification of the name, ignoring case; None exactly when none has it |
| ClassDeclarations.LocalAttribute | Simula/src/simula/compiler/declaration/ClassDeclaration.java:434-458 | a found attribute belongs to the class and has the name, ignoring case; None exactly when no parameter, declaration, label, virtual match or virtual specification has it |
| ClassDeclarations.FindLocalAttribute | Simula/src/simula/compiler/declaration/ClassDeclaration.java:434-458 | the five for-each loops compute LocalAttribute, parameters first and virtual specifications last |
| ClassDeclarations.FindLocalProcedure | Simula/src/simula/compiler/declaration/ClassDeclaration.java:467-473 | the first declaration with the name if it is a procedure, otherwise None: the search stops at the first name match |
| ClassDeclarations.BehindHidden | Simula/src/simula/compiler/declaration/ClassDeclaration.java:563-566 | the scope a HIDDEN specification sends the search to lies before the hiding scope, so the search ends |
| ClassDeclarations.VisibleFrom | Simula/src/simula/compiler/declaration/ClassDeclaration.java:562-576 | the SEARCH loop: a meaning it finds binds the name in a scope no later than where it started, flagged when found behind HIDDEN |
| ClassDeclarations.VisibleAttributeMeaning | Simula/src/simula/compiler/declaration/ClassDeclaration.java:552-579 | an own attribute is found in the class itself, not behind HIDDEN; any meaning found binds the name |
| ClassDeclarations.FindVisibleAttributeMeaning | Simula/src/simula/compiler/declaration/ClassDeclaration.java:552-579 | the labelled loop computes VisibleAttributeMeaning |
| ClassDeclarations.VisibleFromWithoutHidden | Simula/src/simula/compiler/declaration/ClassDeclaration.java:562-576 | when no class on the chain hides the name, the search gives the first class on the prefix chain that has it |
| ClassDeclarations.VisibleWithoutHidden | Simula/src/simula/compiler/declaration/ClassDeclaration.java:552-579 | when no prefix hides the name, the visible meaning is the first class, from the class itself along its prefix chain, that has the name |
| ClassDeclarations.WithinFromOnChain | Simula/src/simula/compiler/declaration/ClassDeclaration.java:532-546 | withinScope holds exactly when the other scope is on the enclosing chain of the current scope or a prefix of a class on it |
| ClassDeclarations.WithinScope | Simula/src/simula/compiler/declaration/ClassDeclaration.java:532-546 | the two nested loops compute WithinFrom |
| ClassDeclarations.WithinFrom | Simula/src/simula/compiler/declaration/ClassDeclaration.java:532-546 | definition: the scope is one of the enclosing scopes or a prefix of an enclosing class; WithinFromOnChain states it on the enclosing chain |
| ClassDeclarations.RemoteFrom | Simula/src/simula/compiler/declaration/ClassDeclaration.java:496-513 | the SEARCH loop of remote lookup: a meaning found binds the name and is unprotected or seen from within its class |
| ClassDeclarations.RemoteAttributeMeaning | Simula/src/simula/compiler/declaration/ClassDeclaration.java:486-515 | a remote meaning binds the name and is either unprotected or found from within its scope |
| ClassDeclarations.FindRemoteAttributeMeaning | Simula/src/simula/compiler/declaration/ClassDeclaration.java:486-515 | the labelled loop computes RemoteAttributeMeaning |
| ClassDeclarations.RemoteFromUnprotected | Simula/src/simula/compiler/declaration/ClassDeclaration.java:496-513 | without any PROTECTED specification the remote search is the visible search |
| ClassDeclarations.RemoteIsVisibleWithoutProtection | Simula/src/simula/compiler/declaration/ClassDeclaration.java:486-515 | without PROTECTED, and when the class does not hide the name itself, remote lookup equals visible lookup |
| ClassDeclarations.ProtectedVisibleFromInside | Simula/src/simula/compiler/declaration/ClassDeclaration.java:486-515 | from inside the class, its own attribute is found, protected or not |
| ClassDeclarations.ProtectedHiddenFromOutside | Simula/src/simula/compiler/declaration/ClassDeclaration.java:486-515 | from outside the class and its subclasses, its own protected attribute is never the meaning found |
| ClassDeclarations.Nlabels | Simula/src/simula/compiler/declaration/ClassDeclaration.java:420-424 | the label count is at least the class's own label count |
| ClassDeclarations.NlabelsSumsRealChain | Simula/src/simula/compiler/declaration/ClassDeclaration.java:420-424 | the label count is the sum of the labels of the class and its real prefixes |
| ClassDeclarations.FirstInner | Simula/src/simula/compiler/declaration/ClassDeclaration.java:288-296 | the position of the first INNER keyword of the body, or None when there is none |
| ClassDeclarations.ParseBody | Simula/src/simula/compiler/declaration/ClassDeclaration.java:288-297 | the body has exactly one INNER: the first one in place, or an implicit one at the end; each further INNER gives one "Max one INNER per Block" error |
| ClassDeclarations.ParseBodyEnd | Simula/src/simula/compiler/declaration/ClassDeclaration.java:297 | the state the statement loop ends in gives ParseBody's result |
| ClassDeclarations.SaveClassStms | Simula/src/simula/compiler/declaration/ClassDeclaration.java:816-823 | the statements' code is saved only when no code was saved before; nothing else changes |
| ClassDeclarations.SaveChain | Simula/src/simula/compiler/declaration/ClassDeclaration.java:841-847 | writeCode1 saves the statements' code of exactly the classes on the real chain |
| ClassDeclarations.SaveChainValid | Simula/src/simula/compiler/declaration/ClassDeclaration.java:816-823 | saving code changes no link, so the arena stays well formed |
| ClassDeclarations.OwnCode1Lines | Simula/src/simula/compiler/declaration/ClassDeclaration.java:847-849 | a class emits its saved code before INNER, with a debug comment |
| ClassDeclarations.WriteCode1RootFirst | Simula/src/simula/compiler/declaration/ClassDeclaration.java:841-850 | the code before INNER runs along the real chain, the root-most class first |
| ClassDeclarations.OwnCode2Lines | Simula/src/simula/compiler/declaration/ClassDeclaration.java:859-862 | a class emits its code after INNER, with a debug comment only when there is some |
| ClassDeclarations.WriteCode2OwnFirst | Simula/src/simula/compiler/declaration/ClassDeclaration.java:858-866 | the code after INNER runs along the real chain, the class itself first |
| ClassDeclarations.WriteCode2 | Simula/src/simula/compiler/declaration/ClassDeclaration.java:858-866 | a class without a real prefix emits exactly its own code after INNER |
| ClassDeclarations.CodeStatementsNest | Simula/src/simula/compiler/declaration/ClassDeclaration.java:829-833 | a subclass's statements sit between its real prefix's code before and after INNER |
| ClassDeclarations.WriteCode2Unchanged | Simula/src/simula/compiler/declaration/ClassDeclaration.java:858-866 | writeCode2 does not read the saved code before INNER |
| ClassDeclarations.WriteCode1Cached | Simula/src/simula/compiler/declaration/ClassDeclaration.java:816-823 | once writeCode1 has run, running it again changes nothing and emits the same lines, whatever the statements would now code to |
| ClassDeclarations.WriteCode1LinesCached | Simula/src/simula/compiler/declaration/ClassDeclaration.java:841-850 | when every class on the chain has its code saved, writeCode1 emits what it would have emitted before |
| ClassDeclarations.FormalEntries | Simula/src/simula/compiler/declaration/ClassDeclaration.java:789-795 | one formal per chained parameter |
| ClassDeclarations.EdFormalParameterList | Simula/src/simula/compiler/declaration/ClassDeclaration.java:784-798 | the text is "(", the static link, then each parameter of the prefix chain, root first, as its Java type and "s" with its external identifier, separated by commas, then ") {" |
| ClassDeclarations.EdFormals | Simula/src/simula/compiler/declaration/ClassDeclaration.java:789-797 | the loop over the chained parameters builds that text |
| ClassDeclarations.ExternalRoundTrip | Simula/src/simula/compiler/declaration/ClassDeclaration.java:963-1006 | readExternal gives back every field writeExternal writes, as a class in the given scope; the virtual match list, which is not written, comes back empty |
| ClassDeclarations.WriteExternal | Simula/src/simula/compiler/declaration/ClassDeclaration.java:963-985 | definition: the fields written to the attribute file, in order; ExternalRoundTrip reads them back |
| ClassDeclarations.ReadExternal | Simula/src/simula/compiler/declaration/ClassDeclaration.java:989-1006 | definition: a class declaration filled from the fields in the order written; ExternalRoundTrip is the round trip |
| CallProcedures.ThunkExtends | Simula/src/simula/compiler/expression/CallProcedure.java:408-466 | appending to a `_NAME` thunk's code leaves it a thunk |
| CallProcedures.Getter | Simula/src/simula/compiler/expression/CallProcedure.java:427-428  | the opening of a by-name thunk is a `_NAME` thunk |
| CallProcedures.GetterThunk | Simula/src/simula/compiler/expression/CallProcedure.java:460-464  | a getter-only thunk is the opening closed by " }" |
| CallProcedures.CopyIsNotThunk | Simula/src/simula/compiler/expression/CallProcedure.java:411-413  | a copied text value is not a thunk |
| CallProcedures.SimpleThunkIffByName | Simula/src/simula/compiler/expression/CallProcedure.java:408-466 | a simple actual becomes a thunk exactly when it is by name; by default it is its own code; by value it is its code, copied for a text |
| CallProcedures.SimpleByNameIsThunk | Simula/src/simula/compiler/expression/CallProcedure.java:423-465  | every by-name simple actual becomes a `_NAME` thunk |
| CallProcedures.SimpleByNamePut | Simula/src/simula/compiler/expression/CallProcedure.java:423-465  | the by-name thunk opens with the getter of the actual and has a put method exactly when the actual is a writeable variable that is not a block |
| CallProcedures.LabelThunk | Simula/src/simula/compiler/expression/CallProcedure.java:391-398  | a label by name is a getter-only `_NAME<_LABQNT>` thunk |
| CallProcedures.ProcedureQuant | Simula/src/simula/compiler/expression/CallProcedure.java:506-542 | an actual that is not a procedure gives "UNKNOWN" and the illegal-procedure error; no procedure actual gives an error |
| CallProcedures.ProcedureQuantKinds | Simula/src/simula/compiler/expression/CallProcedure.java:506-542 | a procedure reached through a virtual match is passed as that virtual quantity of its static link or object, any other plain one as a new _PRCQNT |
| CallProcedures.Transmit | Simula/src/simula/compiler/expression/CallProcedure.java:385-402 | transmission fails with an internal error exactly for a procedure actual edProcedureQuant does not know |
| CallProcedures.ByNameTransmitsThunk | Simula/src/simula/compiler/expression/CallProcedure.java:385-402 | every actual to a by-name formal, of any kind, is transmitted as a `_NAME` thunk |
| CallProcedures.ValueAndDefaultTransmission | Simula/src/simula/compiler/expression/CallProcedure.java:385-481  | by default every actual is its own code; by value an array gets ".COPY()" and a text is copied; neither reports anything |
| CallProcedures.DimensionCheck | Simula/src/simula/compiler/expression/CallProcedure.java:350-357 | no message exactly when the formal is no array or the actual's known dimensions match; an actual with known but different dimensions gets the wrong-dimensions error |
| CallProcedures.Transmitted | Simula/src/simula/compiler/expression/CallProcedure.java:347-365  | one transmitted code per actual |
| CallProcedures.EdProcedureParameters | Simula/src/simula/compiler/expression/CallProcedure.java:336-369 | the loop computes ParameterList |
| CallProcedures.ParameterList | Simula/src/simula/compiler/expression/CallProcedure.java:336-369 | the actuals fail only when there are some; without them nothing is reported |
| CallProcedures.TransmitList | Simula/src/simula/compiler/expression/CallProcedure.java:347-365  | the loop over the actuals joins the static link and the transmitted codes with commas, or fails when one actual fails |
| CallProcedures.TransmitOne | Simula/src/simula/compiler/expression/CallProcedure.java:385-402 | the dispatch on the formal's kind computes Transmit |
| CallProcedures.TransmittedStep | Simula/src/simula/compiler/expression/CallProcedure.java:347-365  | one more actual appends its code, its dimension messages and its own messages |
| CallProcedures.TransmittedStaysNone | Simula/src/simula/compiler/expression/CallProcedure.java:347-365  | an internal error in one actual ends the whole transmission |
| CallProcedures.SetParsStaysNone | Simula/src/simula/compiler/expression/CallProcedure.java:261-284 | an internal error or a crash in one actual of codeCPF ends its transmission |
| CallProcedures.ListStep | Simula/src/simula/compiler/expression/CallProcedure.java:358-360  | one more item of the list gets a comma only after an earlier item |
| CallProcedures.ParameterListShape | Simula/src/simula/compiler/expression/CallProcedure.java:336-369 | without actuals the list is "(" static link ")" or "()"; any list is parenthesised |
| CallProcedures.ParameterListReadsBack | Simula/src/simula/compiler/expression/CallProcedure.java:336-369 | splitting the list at its commas gives back the static link and each transmitted actual, in order |
| CallProcedures.DimensionMessagesCollected | Simula/src/simula/compiler/expression/CallProcedure.java:350-357 | every dimension message of an actual appears among the list's messages |
| CallProcedures.NormalResultIff | Simula/src/simula/compiler/expression/CallProcedure.java:47-59 | a normal call is a new instance of the procedure's class, and fetches `._RESULT` exactly for a typed procedure that is part of an expression |
| CallProcedures.NormalCall | Simula/src/simula/compiler/expression/CallProcedure.java:47-59 | the code starts with "new ", the Java class and the parameters, and ends with "._RESULT" for a typed procedure in an expression |
| CallProcedures.RemoteCall | Simula/src/simula/compiler/expression/CallProcedure.java:72-115 | a remote virtual call is coded as such; a context-free method is its class, a dot, then the method and parameters with the object's code; an ordinary member method is the object's code, a dot, then the method and its parameters; any other procedure is a new instance with the object's value as static link |
| CallProcedures.RemoteResultIff | Simula/src/simula/compiler/expression/CallProcedure.java:84-87 | through an object, a procedure that is neither virtual nor a method fetches "._RESULT" exactly when typed and part of an expression |
| CallProcedures.SourceLineConstant | Simula/src/simula/compiler/expression/CallProcedure.java:268-272  | the standard procedure sourceline is replaced by the call's line number as an integer constant |
| CallProcedures.SetParItems | Simula/src/simula/compiler/expression/CallProcedure.java:263-284  | one ".setPar(...)" per actual |
| CallProcedures.ResultCast | Simula/src/simula/compiler/expression/CallProcedure.java:289-305  | a call outside an expression is not cast |
| CallProcedures.CodeCPF | Simula/src/simula/compiler/expression/CallProcedure.java:255-307 | for any actuals, the loop and the cast compute CpfCall: the quantity's ".CPF()", one ".setPar(...)" per actual, "._ENT()" only with arguments, then the result cast; None when an actual cannot be transmitted |
| CallProcedures.CpfCall | Simula/src/simula/compiler/expression/CallProcedure.java:255-307 | the call fails exactly when one of the actuals cannot be coded; without arguments nothing is reported |
| CallProcedures.SetPars | Simula/src/simula/compiler/expression/CallProcedure.java:261-284 | the first n actuals are coded exactly when each of them can be coded |
| CallProcedures.CpfSetPars | Simula/src/simula/compiler/expression/CallProcedure.java:261-284 | for any actuals, the loop computes SetPars, failing at the first actual that cannot be transmitted |
| CallProcedures.CpfTransmitOne | Simula/src/simula/compiler/expression/CallProcedure.java:262-284  | an actual is classified by what it is and transmitted by name, with sourceline replaced by its value; an unclassifiable actual, and a by-name actual with a null type (the NullPointerException of :424), give None |
| CallProcedures.SetParsStep | Simula/src/simula/compiler/expression/CallProcedure.java:261-284 | one more actual appends its ".setPar(...)" and its messages |
| CallProcedures.CpfUntypedActualFails | Simula/src/simula/compiler/expression/CallProcedure.java:262-284 | an untyped actual in a simple position, transmitted by name with its own null type, makes codeCPF fail whatever the other actuals are |
| CallProcedures.CpfEntersIffArguments | Simula/src/simula/compiler/expression/CallProcedure.java:286 | codeCPF enters the procedure with "._ENT()" exactly when the call has arguments |
| CallProcedures.CodeCSVP | Simula/src/simula/compiler/expression/CallProcedure.java:312-331 | for any actuals, the loop over the specification's formals computes CsvpCall |
| CallProcedures.CsvpCall | Simula/src/simula/compiler/expression/CallProcedure.java:312-331 | the call fails exactly when the specified transmission fails; the code starts with the quantity's ".CPF()" and, with arguments, ends with "._ENT()" |
| CallProcedures.CsvpTooManyActualsFails | Simula/src/simula/compiler/expression/CallProcedure.java:318-320 | more actuals than formals make codeCSVP fail: the formal iterator has no next element |
| CallProcedures.SpecSetParList | Simula/src/simula/compiler/expression/CallProcedure.java:316-328 | for any actuals, the loop computes SpecSetPars: None at an actual beyond the last formal, at one that cannot be transmitted, or at an internal error |
| CallProcedures.TransmittedAgree | Simula/src/simula/compiler/expression/CallProcedure.java:347-365 | the transmission of the first n actuals depends only on the first n formals and actuals |
| CallProcedures.SpecTransmittedStep | Simula/src/simula/compiler/expression/CallProcedure.java:316-328 | one more actual of codeCSVP appends its code and its messages |
| CallProcedures.SpecTransmittedFails | Simula/src/simula/compiler/expression/CallProcedure.java:316-328 | an internal error in one actual ends codeCSVP |
| CallProcedures.SetParStep | Simula/src/simula/compiler/expression/CallProcedure.java:316-328 | one more actual adds one ".setPar(...)" |
| CallProcedures.SpecifiedCpfCall | Simula/src/simula/compiler/expression/CallProcedure.java:255-305  | with a procedure specification, codeCPF fails exactly when codeCSVP fails and reports its messages |
| CallProcedures.ResultCastContainsCall | Simula/src/simula/compiler/expression/CallProcedure.java:289-305  | inside an expression the result is fetched by "._RESULT()" and cast: an arithmetic result by "<type>Value(...)", any other by a Java cast |
| CallProcedures.FormalIdent | Simula/src/simula/compiler/expression/CallProcedure.java:203-208 | a formal procedure is its access path, read through get() exactly when it is by name |
| CallProcedures.VirtualIdent | Simula/src/simula/compiler/expression/CallProcedure.java:220-232 | a virtual label, or a virtual reached remotely, is its virtual identifier; otherwise it is qualified by the connected object or the static link |
| CallProcedures.RemoteVirtualIdent | Simula/src/simula/compiler/expression/CallProcedure.java:246-250 | a remote virtual is the object's value, a dot and the virtual identifier |
| Variables.IndicesToInteger | Simula/src/simula/compiler/expression/Variable.java:175-180 | every array index is converted to integer, one checked index per index, in order |
| Variables.CallChecked | Simula/src/simula/compiler/expression/Variable.java:193-215 | one checked actual per matched pair of formal and actual |
| Variables.CallCheck | Simula/src/simula/compiler/expression/Variable.java:183-220 | one checked actual per pair of formal and actual, no dimensions, never fatal; a result type that is not overloaded is kept |
| Variables.CheckCall | Simula/src/simula/compiler/expression/Variable.java:183-220 | the labelled loop over the actuals, stopping with an error when the formals run out, computes CallCheck |
| Variables.CallCheckedTargets | Simula/src/simula/compiler/expression/Variable.java:201-214 | each matched actual is converted to its formal's type, or kept at its own type for an overloaded formal |
| Variables.CallErrorsAreTypeErrors | Simula/src/simula/compiler/expression/Variable.java:208-211 | the errors reported per actual never speak of the number of parameters |
| Variables.CallArity | Simula/src/simula/compiler/expression/Variable.java:192-218 | the wrong-number-of-parameters error is reported exactly when the numbers of actuals and formals differ; the matched pairs are as many as the shorter list; the check never fails fatally |
| Variables.IndexTypeOk | Simula/src/simula/compiler/expression/Variable.java:233 | intended (see ## Findings): an index type is legal exactly when it is present and arithmetic |
| Variables.IndexTypeAsWrittenThrowsOnUntyped | Simula/src/simula/compiler/expression/Variable.java:233 | the test as written has no answer for an index without a type, and agrees with IndexTypeOk for any typed index |
| Variables.CheckFormalArrayIndices | Simula/src/simula/compiler/expression/Variable.java:228-238 | the loop over the indices of a formal array converts each to integer and reports IndexErrors |
| Variables.AllAsIs | Simula/src/simula/compiler/expression/Variable.java:238-246 | the actuals of a formal procedure or a virtual are kept unconverted, in order |
| Variables.CheckAsIs | Simula/src/simula/compiler/expression/Variable.java:238-246 | the loop over the actuals computes AllAsIs |
| Variables.Variable.constructor | Simula/src/simula/compiler/expression/Variable.java:119-138 | a new variable has its identifier, arguments and meaning, no type and no checked parameters, and is unchecked |
| Variables.Variable.DoChecking | Simula/src/simula/compiler/expression/Variable.java:146-257 | the first call sets the type, the checked parameters, the errors, a formal array's dimensions and the internal-error outcome as Checking says; later calls change nothing |
| Variables.Checking | Simula/src/simula/compiler/expression/Variable.java:146-257 | without arguments or without a meaning nothing is checked or reported; only a formal array gets dimensions, one per index; only a plain variable or a formal that is not an array or procedure is fatal when given arguments |
| Variables.Variable.MaybeStatement | Simula/src/simula/compiler/expression/Variable.java:260-279 | a variable may stand as a statement exactly when it names a procedure, a method, a formal procedure or a virtual procedure |
| Variables.CheckingWithoutArguments | Simula/src/simula/compiler/expression/Variable.java:149-166 | a variable without arguments gets its declared type, no checked parameters and no error |
| Variables.CheckingIndices | Simula/src/simula/compiler/expression/Variable.java:171-181 | the indices of an array, and of a formal array, are all converted to integer |
| Variables.IndexErrorsCount | Simula/src/simula/compiler/expression/Variable.java:233 | a formal array reports one "Illegal index-type" for each index that is not legal |
| Variables.EdIndices | Simula/src/simula/compiler/expression/Variable.java:315-327 | the loop over the indices builds "(" and the indices separated by commas |
| Variables.DoGetElement | Simula/src/simula/compiler/expression/Variable.java:315-327 | an element is read as getELEMENT of the indices |
| Variables.DoPutElement | Simula/src/simula/compiler/expression/Variable.java:332-344 | an element is written as putELEMENT of the index of the indices and the right part |
| Variables.ElementIndicesReadBack | Simula/src/simula/compiler/expression/Variable.java:315-344 | splitting the index list at its commas gives back the indices |
| Variables.EdIdentifierAccess | Simula/src/simula/compiler/expression/Variable.java:504-532 | a constant is its code; otherwise the access path ends with the identifier |
| Variables.BareAccessIff | Simula/src/simula/compiler/expression/Variable.java:504-532 | the identifier is used bare exactly when it is accessed remotely, or not through a connection and either an attribute of a method or on the current runtime level and not behind an invisible attribute |
| Variables.ConnectedAccessStartsWithInspected | Simula/src/simula/compiler/expression/Variable.java:512-520 | through a connection the path starts with the inspected object, cast to the class it was found in when behind an invisible attribute |
| Variables.Unbracketed | Simula/src/simula/compiler/expression/Variable.java:540 | the square brackets of the printed vector become parentheses, length kept |
| Variables.VariableString | Simula/src/simula/compiler/expression/Variable.java:538-541 | a variable without arguments prints as its identifier; with arguments no square bracket remains |
| ProgramModules.RelativeAttributeFileName | Simula/src/simula/compiler/ProgramModule.java:56-60 | an attribute file exists exactly for a class or a procedure compiled on its own: CLASS.AF or PROCEDURE.AF in the packet's directory |
| ProgramModules.AttributeFileOnlyForLibraryModules | Simula/src/simula/compiler/ProgramModule.java:56-66 | a module with an attribute file is not executable, and the two file names differ |
| ProgramModules.ExecutableIffBlockHead | Simula/src/simula/compiler/ProgramModule.java:62-99 | a module is executable exactly when it starts with BEGIN or with an identifier not followed by CLASS, and has an attribute file exactly when it is not executable |
| ProgramModules.IdentifierBecomesPrefix | Simula/src/simula/compiler/ProgramModule.java:85-99 | an identifier read first is the prefix of the class or of the prefixed block; a class without one has no prefix; a procedure has the type read before PROCEDURE; only BEGIN gives the main program |
| ProgramModules.NoModuleIffProcedureMissing | Simula/src/simula/compiler/ProgramModule.java:93-98 | only a missing PROCEDURE after an optional type leaves the module unset |
| ProgramModules.Dispatch | Simula/src/simula/compiler/ProgramModule.java:84-98 | definition: the module the head selects; NoModuleIffProcedureMissing and ExecutableIffBlockHead state its cases |
| ProgramModules.ProgramModule.constructor | Simula/src/simula/compiler/ProgramModule.java:68-105 | the module is the one the head selects, with new variables sysin and sysout bound to their declarations, unchecked |
| ProgramModules.ProgramModule.DoChecking | Simula/src/simula/compiler/ProgramModule.java:108-114 | the first call checks sysin, then sysout, then the module, in that order, and marks the program checked; without a module it stops after sysout (the NullPointerException), reports failure and stays unchecked; a checked program checks nothing |
| UnaryOperations.OpCode | Simula/src/simula/compiler/expression/UnaryOperation.java:91 | each operator codes as a single Java character |
| UnaryOperations.Evaluated | Simula/src/simula/compiler/expression/UnaryOperation.java:55-65 | folding keeps the kind of the constant |
| UnaryOperations.EvaluatedInvolution | Simula/src/simula/compiler/expression/UnaryOperation.java:55-65 | unary plus leaves a constant alone, unary minus undoes itself, and minus fixes only zero |
| UnaryOperations.Folded | Simula/src/simula/compiler/expression/UnaryOperation.java:42-52 | create folds exactly a PLUS or MINUS whose operand is present and a numeric constant, to its evaluated value |
| UnaryOperations.Recovered | Simula/src/simula/compiler/expression/UnaryOperation.java:35-38 | a missing operand is replaced by the variable UNKNOWN_, which is no constant |
| UnaryOperations.UnaryOperation.Node | Simula/src/simula/compiler/expression/UnaryOperation.java:32-40 | a new node holds its operator and operand, untyped and unchecked |
| UnaryOperations.UnaryOperation.Evaluate | Simula/src/simula/compiler/expression/UnaryOperation.java:55-65 | evaluate folds as create does |
| UnaryOperations.UnaryOperation.DoChecking | Simula/src/simula/compiler/expression/UnaryOperation.java:67-80 | the first call types the node, Boolean for NOT and the operand's type otherwise; later calls change nothing |
| UnaryOperations.UnaryOperation.MaybeStatement | Simula/src/simula/compiler/expression/UnaryOperation.java:83-86 | a unary operation is never a statement |
| UnaryOperations.UnaryOperation.ToJavaCode | Simula/src/simula/compiler/expression/UnaryOperation.java:89-92 | the code is the operator's character and the operand's code, each parenthesised |
| UnaryOperations.UnaryOperation.ToString | Simula/src/simula/compiler/expression/UnaryOperation.java:95-97 | the text starts "(UNARY:" and ends with the operand's image and ")" |
| UnaryOperations.CheckedType | Simula/src/simula/compiler/expression/UnaryOperation.java:67-80 | NOT is Boolean and PLUS and MINUS have the operand's type |
| UnaryOperations.CheckedTypeArithmetic | Simula/src/simula/compiler/expression/UnaryOperation.java:71-77 | unary plus and minus keep an arithmetic operand arithmetic |
| UnaryOperations.JavaCodeDetermines | Simula/src/simula/compiler/expression/UnaryOperation.java:89-92 | two nodes with the same Java code have the same operator and operand code |
| UnaryOperations.Create | Simula/src/simula/compiler/expression/UnaryOperation.java:42-52 | the folded constant and no node, or else a fresh unchecked node of the recovered operand, with the missing-operand error exactly when the operand is missing |
| UnaryOperations.EvaluateAgreesWithCreate | Simula/src/simula/compiler/expression/UnaryOperation.java:42-65 | a node's evaluate agrees with what create folds, and a recovered missing operand never folds |
| UnaryOperations.FoldMinusTwice | Simula/src/simula/compiler/expression/UnaryOperation.java:55-65 | folding unary minus twice gives back the constant |
| Statements.GotoLineInjective | Simula/src/simula/compiler/statement/GotoStatement.java:49-56 | the goto line tells whether the label is a quasi label or an evaluated one, and which label it is |
| Statements.GotoStatement.constructor | Simula/src/simula/compiler/statement/GotoStatement.java:33-35 | a new goto holds its label expression, unchecked |
| Statements.GotoStatement.DoChecking | Simula/src/simula/compiler/statement/GotoStatement.java:37-43 | the first call links the label back to the statement; a second changes nothing |
| Statements.GotoStatement.JavaCoding | Simula/src/simula/compiler/statement/GotoStatement.java:45-57 | in a standard class the goto is a quasi label of the label's image; otherwise it codes the evaluated label, and fails its invariant exactly when the label is not of type LABEL |
| Statements.GotoStatement.ToString | Simula/src/simula/compiler/statement/GotoStatement.java:59-61 | "GOTO " followed by the label |
| Statements.GotoCodingRecoversLabel | Simula/src/simula/compiler/statement/GotoStatement.java:45-57 | two gotos coded alike have the same label image in a standard class and the same label code otherwise |
| Statements.InstantiationArgumentsSplit | Simula/src/simula/compiler/statement/BlockStatement.java:58-69 | the instantiation's arguments split back into the static link and the prefix's actual parameters |
| Statements.BlockStatement.constructor | Simula/src/simula/compiler/statement/BlockStatement.java:32-36 | a new block statement holds its block declaration, unchecked |
| Statements.BlockStatement.DoChecking | Simula/src/simula/compiler/statement/BlockStatement.java:43-47 | the first call checks the block declaration, at the same block level; a second call changes nothing |
| Statements.BlockStatement.JavaCoding | Simula/src/simula/compiler/statement/BlockStatement.java:54-76 | a compound statement emits only the block's code; any other block is first instantiated with its static link and the prefix's actual parameters, and started with _START() for a prefixed block that uses detach itself or through a prefix class (isDetachUsed), or with _STM() otherwise |
| ClassDeclarations.IsDetachUsed | Simula/src/simula/compiler/declaration/ClassDeclaration.java:642-650 | definition: the class's own flag, or recursively its prefix class's; DetachUsedAlongChain is its partner |
| ClassDeclarations.DetachUsedAlongChain | Simula/src/simula/compiler/declaration/ClassDeclaration.java:642-650 | detach is used exactly when the class or a class on its prefix chain has the flag set |
| Statements.NoneHeads | Simula/src/simula/compiler/statement/SwitchStatement.java:83-86 | the NONE parts number at most the when parts |
| Statements.WhenParts | Simula/src/simula/compiler/statement/SwitchStatement.java:81-96 | one when part per WHEN, in order |
| Statements.ParseWhenParts | Simula/src/simula/compiler/statement/SwitchStatement.java:80-96 | the WHEN loop gives the when parts in order, and reports "NONE Case is already used" once for every NONE after the first |
| Statements.CaseLinesRange | Simula/src/simula/compiler/statement/SwitchStatement.java:138-141 | a range low : hi gives one case line for every value from low to hi, in order, and none when hi is below low |
| Statements.CaseLineInjective | Simula/src/simula/compiler/statement/SwitchStatement.java:141-142 | different values give different case lines |
| Statements.RangeCoding | Simula/src/simula/compiler/statement/SwitchStatement.java:140-141 | the for loop emits CaseLines |
| Statements.WhenCoding | Simula/src/simula/compiler/statement/SwitchStatement.java:131-146 | the loop over the keys emits each key's lines, then the statement and "break;" |
| Statements.KeyLinesCases | Simula/src/simula/compiler/statement/SwitchStatement.java:133-143 | a NONE key is the default case, a single key one case line, and a range the case lines of its values |
| Statements.SwitchStatement.constructor | Simula/src/simula/compiler/statement/SwitchStatement.java:70-99 | a new switch holds its key interval, its key and its when parts, unconverted and unchecked |
| Statements.SwitchStatement.DoChecking | Simula/src/simula/compiler/statement/SwitchStatement.java:170-189 | the first call converts a CHARACTER key to CHARACTER and any other key to INTEGER; later calls change nothing |
| Statements.SwitchStatement.JavaCoding | Simula/src/simula/compiler/statement/SwitchStatement.java:192-203 | the loop over the when parts emits SwitchLines |
| Statements.SwitchLinesShape | Simula/src/simula/compiler/statement/SwitchStatement.java:192-203 | the coded switch is the interval test, the Java switch, each when part in order, and the closing brace |
| DecLib.CheckExtension | Simula/src/simula/runtime/_DEC_Lib.java:157-162 | a name holding a '.' is returned itself; any other gets a new text of the name followed by the extension |
| DecLib.Conc | Simula/src/simula/runtime/_DEC_Lib.java:309-322 | a new text holding the first text followed by the second |
| DecLib.Conc3 | Simula/src/simula/runtime/_DEC_Lib.java:332-334 | a new text holding the three texts in order |
| DecLib.Conc4 | Simula/src/simula/runtime/_DEC_Lib.java:345-347 | a new text holding the four texts in order |
| DecLib.Conc5 | Simula/src/simula/runtime/_DEC_Lib.java:359-361 | a new text holding the five texts in order |
| DecLib.Depchar | Simula/src/simula/runtime/_DEC_Lib.java:429-434 | for a position from one to the length, exactly that character of the object is replaced and POS is left after it; any other position changes nothing |
| DecLib.Fetchar | Simula/src/simula/runtime/_DEC_Lib.java:517-523 | for a position from one to the length, that character, with POS left after it; any other position gives char 0 and leaves POS |
| DecLib.Compress | Simula/src/simula/runtime/_DEC_Lib.java:274-290 | the characters other than c are written, in order, over the front of the text and returned as its leading subtext, notext when none is kept; the rest of the object is unchanged |
| DecLib.MoveKept | Simula/src/simula/runtime/_DEC_Lib.java:280-286 | the loop writes exactly the kept characters over the front of the text |
| DecLib.Keep | Simula/src/simula/runtime/_DEC_Lib.java:282-285 | one depchar appends one kept character |
| DecLib.OverwriteSnoc | Simula/src/simula/runtime/_DEC_Lib.java:283 | overwriting one more character extends the overwritten prefix |
| DecLib.OverwriteFront | Simula/src/simula/runtime/_DEC_Lib.java:283 | overwriting keeps the object's length and puts the written characters in place |
| DecLib.FindTrigger | Simula/src/simula/runtime/_DEC_Lib.java:549-562 | the first character from POS on that is a trigger, with POS left after it; char 0 and POS unchanged when there is none |
| DecLib.From | Simula/src/simula/runtime/_DEC_Lib.java:579-587 | intended (see ## Findings): the subtext from position p (from one) to the end; the text itself for p <= 0; notext beyond the end |
| DecLib.Front | Simula/src/simula/runtime/_DEC_Lib.java:602-606 | the subtext before POS; notext for notext or POS at the start |
| DecLib.FrontCompare | Simula/src/simula/runtime/_DEC_Lib.java:624-628 | true exactly when the text from POS on begins with config |
| DecLib.GetItem | Simula/src/simula/runtime/_DEC_Lib.java:695-739 | intended (see ## Findings): past the blanks from POS, the item at the front of the rest as a new text, with POS after it |
| DecLib.ItemEnd | Simula/src/simula/runtime/_DEC_Lib.java:711-735 | intended (see ## Findings): the state machine stops at the end of the item as ItemLength delimits it |
| DecLib.MakeText | Simula/src/simula/runtime/_DEC_Lib.java:933-944 | notext for n <= 0; otherwise a new writable text of n copies of c with POS at its start |
| DecLib.PutText | Simula/src/simula/runtime/_DEC_Lib.java:976-985 | when the new string fits from POS and the text is writable, its characters replace those from POS on and POS moves past them; otherwise false and nothing changes |
| DecLib.Rest | Simula/src/simula/runtime/_DEC_Lib.java:1000-1003 | the subtext from POS on; notext when POS is at the end |
| DecLib.ScanTo | Simula/src/simula/runtime/_DEC_Lib.java:1183-1198 | intended (see ## Findings): the subtext from POS up to the first c (notext if empty), with POS after that c; without a c, the rest (notext if empty) with POS at the end |
| DecLib.Search | Simula/src/simula/runtime/_DEC_Lib.java:1214-1221 | 0 for a notext; otherwise the position, from one, of the first occurrence of the second text at or after POS, or the length plus one when there is none |
| DecLib.Skip | Simula/src/simula/runtime/_DEC_Lib.java:1249-1267 | intended (see ## Findings): POS moves past the run of c that starts at POS; the rest from there as a new text, notext when the run reaches the end |
| DecLib.StartPos | Simula/src/simula/runtime/_DEC_Lib.java:1284-1286 | the position, from one, of the text's first character within its object |
| DecLib.UpCompare | Simula/src/simula/runtime/_DEC_Lib.java:1401-1405 | true exactly when the text from POS on, upper-cased, begins with test |
| DecLib.Upto | Simula/src/simula/runtime/_DEC_Lib.java:1422-1428 | notext for p <= 0 or p == 1, the text itself for p beyond the end, else the p - 1 characters before position p |
| DecValues.Without | Simula/src/simula/runtime/_DEC_Lib.java:280-286 | no longer than the text |
| DecValues.WithoutProperties | Simula/src/simula/runtime/_DEC_Lib.java:280-286 | what compress keeps holds no c and every other character as often as the text does |
| DecValues.WithoutStep | Simula/src/simula/runtime/_DEC_Lib.java:280-286 | one more character keeps those properties |
| DecValues.WithoutSnoc | Simula/src/simula/runtime/_DEC_Lib.java:280-286 | the kept characters of one more character extend the kept characters before it |
| DecValues.CompressExample | Simula/src/simula/runtime/_DEC_Lib.java:274-290 | compress of "AxBxCxDx" on 'x' keeps "ABCD" and leaves "ABCDCxDx" in the object |
| DecValues.SimulaMod | Simula/src/simula/runtime/_DEC_Lib.java:783 | Simula's mod has the sign of the divisor and lies strictly within it |
| DecValues.HashAsWritten | Simula/src/simula/runtime/_DEC_Lib.java:771-784 | definition: the code as written, None for its exceptions; HashAgreesOnNonBlank, HashAsWrittenFailsOnBlank and HashAsWrittenKeepsTrailingBlanks compare it with Hash |
| DecValues.StripTrailingSpaces | Simula/src/simula/runtime/_DEC_Lib.java:752 | the result is the text up to and including its last character that is not a space |
| DecValues.Hash | Simula/src/simula/runtime/_DEC_Lib.java:771-784 | intended (see ## Findings): the text is stripped at both ends before hashing, and the hash fails only for n = 0 |
| DecValues.HashInRange | Simula/src/simula/runtime/_DEC_Lib.java:771-784 | for n > 0 the hash of every text lies in 0..n-1 |
| DecValues.HashAgreesOnNonBlank | Simula/src/simula/runtime/_DEC_Lib.java:771-784 | on a text with a non-blank character and no trailing space the code and the definition agree |
| DecValues.HashAsWrittenFailsOnBlank | Simula/src/simula/runtime/_DEC_Lib.java:774-777 | on "  " the code as written throws, where the definition gives mod(2, n) |
| DecValues.HashAsWrittenKeepsTrailingBlanks | Simula/src/simula/runtime/_DEC_Lib.java:772 | on "ab  " the code hashes a, b and two spaces, giving mod(19317, n), where the definition hashes "ab" and gives mod(50277, n) |
| DecValues.SpanAsWritten | Simula/src/simula/runtime/_DEC_Lib.java:713-735 | the run a state goes on over ends at the first character it does not take |
| DecValues.Digits | Simula/src/simula/runtime/_DEC_Lib.java:726-728 | the run of digits from a position ends at the first non-digit |
| DecValues.Word | Simula/src/simula/runtime/_DEC_Lib.java:730-732 | the run of letters and digits from a position ends at the first other character |
| DecValues.ItemLength | Simula/src/simula/runtime/_DEC_Lib.java:713-735 | intended (see ## Findings): the item is no longer than the rest and empty only for an empty rest |
| DecValues.ItemHasAtMostOnePoint | Simula/src/simula/runtime/_DEC_Lib.java:726-728 | an item holds at most one decimal point, and only a number holds one |
| DecValues.ItemLengthAsWrittenTakesTwoPoints | Simula/src/simula/runtime/_DEC_Lib.java:727 | the code as written takes "1.2.3" as one item of five characters, where the definition ends the number after "1.2" |
| DecValues.ItemLengthAsWritten | Simula/src/simula/runtime/_DEC_Lib.java:713-735 | definition: the item length as the state machine is written; ItemLengthAsWrittenTakesTwoPoints and ItemLengthAgreesOnWords compare it with ItemLength |
| DecValues.ItemLengthAgreesOnWords | Simula/src/simula/runtime/_DEC_Lib.java:713-735 | for an item that is not a number the code and the definition agree |
| DecValues.SpanIsWord | Simula/src/simula/runtime/_DEC_Lib.java:730-732 | the identifier state goes on over exactly the letters and digits |
| DecValues.SubChoice | Simula/src/simula/runtime/_DEC_Lib.java:584 | a subtext is a range error exactly when it does not lie within the text |
| DecValues.FromAsWrittenAtTheEnds | Simula/src/simula/runtime/_DEC_Lib.java:580-584 | as written, from(t, 0) is a range error and from(t, t.length) is notext, where the definition gives t itself and the last character |
| DecValues.FromAsWritten | Simula/src/simula/runtime/_DEC_Lib.java:579-587 | definition: the guards as written; FromAsWrittenAtTheEnds compares them with From |
| DecValues.ScanToAsWrittenStaysOnFound | Simula/src/simula/runtime/_DEC_Lib.java:1189-1192 | as written, a found c leaves POS on it, so the next scanto for c gives notext and never gets past it |
| DecValues.ScanToAsWrittenOvershoots | Simula/src/simula/runtime/_DEC_Lib.java:1194 | as written, when c is missing from a subtext that does not start its object, POS lands beyond the text |
| DecValues.ScanToAsWritten | Simula/src/simula/runtime/_DEC_Lib.java:1183-1199 | definition: the new POS and the subtext as written; ScanToAsWrittenStaysOnFound and ScanToAsWrittenOvershoots compare it with ScanTo |
| DecValues.SkipAsWrittenExamples | Simula/src/simula/runtime/_DEC_Lib.java:1253-1260 | as written, skipping 'a' over "aab" leaves POS 2 outside a text cut to length 1, and over the same characters at START 1 skips nothing |
| DecValues.SkipAsWritten | Simula/src/simula/runtime/_DEC_Lib.java:1249-1267 | definition: POS, LENGTH and the copy as written; SkipAsWrittenExamples compares it with Skip |
| RuntimeFlags.MentionsSnoc | Simula/src/simula/runtime/RT.java:49-61 | one more argument mentions a flag exactly when the earlier ones did or it spells the flag itself |
| RuntimeFlags.MentionsDependsOnlyOnSet | Simula/src/simula/runtime/RT.java:49-61 | whether a flag is mentioned does not depend on the order or the repetition of the arguments |
| RuntimeFlags.AllFlagsComplete | Simula/src/simula/runtime/RT.java:51-60 | the ten flags the loop tests are all the options there are |
| RuntimeFlags.FlagsNamedMeans | Simula/src/simula/runtime/RT.java:51-60 | one argument switches an option on exactly when it equals that option's spelling, ignoring case |
| RuntimeFlags.FlagsMentionedMeans | Simula/src/simula/runtime/RT.java:49-61 | an option is switched on by the arguments exactly when some argument spells it |
| RuntimeFlags.FlagsMentionedSnoc | Simula/src/simula/runtime/RT.java:49-61 | an extra argument adds exactly the options it spells |
| RuntimeFlags.FlagsMentionedPrefix | Simula/src/simula/runtime/RT.java:49-61 | one turn of the loop adds exactly the options argument i spells |
| RuntimeFlags.UnknownArgumentIgnored | Simula/src/simula/runtime/RT.java:51-60 | an argument that spells no flag changes no option and raises no error |
| RuntimeFlags.FlagsDependOnlyOnSet | Simula/src/simula/runtime/RT.java:47-62 | permuting or repeating the arguments switches on the same options |
| RuntimeFlags.Flags.constructor | Simula/src/simula/runtime/RT.java:27-44 | every option starts false |
| RuntimeFlags.Flags.SetRuntimeOptions | Simula/src/simula/runtime/RT.java:47-62 | afterwards an option is true exactly when it was true before or some argument spells it; no option is reset |
| RuntimeFlags.NoneCheck | Simula/src/simula/runtime/RT.java:100-103 | the NONE-CHECK exception is thrown exactly for none |
| RuntimeOptions.FirstMatch | Simula/src/simula/runtime/_RT.java:113-133 | the branch taken is the first whose option equals the argument, ignoring case, and none when no option does |
| RuntimeOptions.ClassifyUnknown | Simula/src/simula/runtime/_RT.java:133 | an option is reported unknown exactly when no entry of the chain spells it |
| RuntimeOptions.Classify | Simula/src/simula/runtime/_RT.java:113-133 | definition: the branch of the option chain an argument takes; ClassifyUnknown states when it is Unknown |
| RuntimeOptions.DigitValue | Simula/src/simula/runtime/_RT.java:132 | a digit's value is below its radix |
| RuntimeOptions.ParseRadixDecimal | Simula/src/simula/runtime/_RT.java:132 | the radix-10 reading of a digit string is its decimal value |
| RuntimeOptions.InIntRange | Simula/src/simula/runtime/_RT.java:95 | the bounds of Java's 32-bit int |
| RuntimeOptions.Signed | Simula/src/simula/runtime/_RT.java:132 | a value that Integer.decode accepts lies within int |
| RuntimeOptions.DecodeInt | Simula/src/simula/runtime/_RT.java:132 | -trace's Integer.decode never yields a value outside int |
| RuntimeOptions.DecodeIntRoundTrip | Simula/src/simula/runtime/_RT.java:132 | decoding the decimal rendering of any int gives it back |
| RuntimeOptions.DecodeDecimal | Simula/src/simula/runtime/_RT.java:132 | a decimal number without a leading zero decodes in radix 10 |
| RuntimeOptions.DecodeSignedDecimal | Simula/src/simula/runtime/_RT.java:132 | a minus sign before such a number negates its value |
| RuntimeOptions.DecimalHasNoPrefix | Simula/src/simula/runtime/_RT.java:132 | such a number carries no hexadecimal or octal prefix and no second sign |
| RuntimeOptions.ParseInt | Simula/src/simula/runtime/_RT.java:266 | Integer.parseInt never yields a value outside int |
| RuntimeOptions.JavaVersion | Simula/src/simula/runtime/_RT.java:259-270 | without a java.version property the version is 0 |
| RuntimeOptions.LegacyJavaVersion | Simula/src/simula/runtime/_RT.java:262-263 | a version string "1.x" gives the digit x, between 0 and 9 |
| RuntimeOptions.ModernJavaVersion | Simula/src/simula/runtime/_RT.java:264-266 | a later version gives the number its first two digits spell |
| RuntimeOptions.MalformedJavaVersion | Simula/src/simula/runtime/_RT.java:267-269 | a version whose second character is not a digit gives 0, as the catch clause does |
| RuntimeOptions.LastSlash | Simula/src/simula/runtime/_RT.java:136-138 | the position of the last separator, with no separator after it, or -1 |
| RuntimeOptions.FileSplit | Simula/src/simula/runtime/_RT.java:136-138 | the module name holds no separator, and the directory, a separator and the name give back the path |
| RuntimeOptions.Step | Simula/src/simula/runtime/_RT.java:110-141 | a turn moves forward within the arguments and never switches an option off or drops an error |
| RuntimeOptions.OptionStep | Simula/src/simula/runtime/_RT.java:113-133 | an option argument moves forward, never switches an option off and never touches the file options |
| RuntimeOptions.TakeStep | Simula/src/simula/runtime/_RT.java:124-132 | a value option stores its value and fails only for -trace with a number Integer.decode refuses |
| RuntimeOptions.RunOnlyAdds | Simula/src/simula/runtime/_RT.java:106-141 | the whole parse never switches an option off and only appends error messages |
| RuntimeOptions.Run | Simula/src/simula/runtime/_RT.java:106-141 | definition: the options after the remaining arguments and the exception that ends the loop; RunOnlyAdds, FirstFileWins and the other lemmas state its properties |
| RuntimeOptions.FileSeenKeepsFile | Simula/src/simula/runtime/_RT.java:135-140 | once a file is named, later arguments leave the directory and module name alone |
| RuntimeOptions.FirstFileWins | Simula/src/simula/runtime/_RT.java:135-140 | the first non-option argument names the directory and the module, whatever follows |
| RuntimeOptions.SwitchStaysOn | Simula/src/simula/runtime/_RT.java:113-123 | a switch named by any argument is on when the parse ends, however it ends |
| RuntimeOptions.UnknownOptionReported | Simula/src/simula/runtime/_RT.java:133 | an unknown option appends "Unknown option" and its spelling to the errors and the parse goes on |
| RuntimeOptions.ValueOptionConsumes | Simula/src/simula/runtime/_RT.java:124-132 | a value option consumes the next argument, which is never taken for a file; as the last argument it is an exception |
| RuntimeOptions.EmptyArgumentCrashes | Simula/src/simula/runtime/_RT.java:111-112 | an empty argument ends the parse with an exception |
| RuntimeOptions.Settings.constructor | Simula/src/simula/runtime/_RT.java:24-95 | the static fields start with their declared values |
| RuntimeOptions.Settings.SourceFileName | Simula/src/simula/runtime/_RT.java:54 | the source directory, a backslash and the module name |
| RuntimeOptions.Settings.SetRuntimeOptions | Simula/src/simula/runtime/_RT.java:106-149 | the options after the loop, and the exception that ends it early, are those of the parse function Run |
| RuntimeOptions.Settings.Turn | Simula/src/simula/runtime/_RT.java:110-141 | one turn of the loop changes the fields as Step says |
| RuntimeOptions.Settings.Option | Simula/src/simula/runtime/_RT.java:113-133 | the else-if chain changes the fields as OptionStep says |
| RuntimeOptions.Settings.TakeValue | Simula/src/simula/runtime/_RT.java:124-132 | storing an option's value changes the fields as TakeStep says |
| EditorTokens.SymbolRoundTrip | Drafts/src/simula/editor/Token.java:82-109 | the printed symbol of an operator tells which operator it is |
| EditorTokens.ToString | Drafts/src/simula/editor/Token.java:82-125 | the printed form reads back: an operator's as that operator, a constant's as its kind and printed value; an identifier prints its name; any other keyword token ends with the keyword's name, with SHORT or LONG first for INTEGER and REAL |
| EditorTokens.ConstantReadsBack | Drafts/src/simula/editor/Token.java:113-118 | "<kind>(<value>)" reads back as that kind and value |
| EditorTokens.ConstantPrintInjective | Drafts/src/simula/editor/Token.java:113-118 | two constants that print alike have the same kind and the same printed value |
| EditorTokens.IdentifierPrintInjective | Drafts/src/simula/editor/Token.java:119 | identifiers print alike exactly when their names are the same, and never print like a constant |
| EditorTokens.SizedTypePrints | Drafts/src/simula/editor/Token.java:121-122 | INTEGER and REAL print as their name, after the SHORT or LONG of their value and a space when there is one |
| EditorTokens.GetText | Drafts/src/simula/editor/Token.java:39-42 | a token with scanned text gives that text verbatim; one without gives a form that reads back as its operator or its constant, or its identifier's name |
| EditorTokens.StyleCodeClasses | Drafts/src/simula/editor/Token.java:43-65 | exactly the punctuation, arithmetic, constant and identifier tokens are regular, only COMMENT is a comment, and the reference and relational operators are keywords |
| EditorTokens.GetStyleCode | Drafts/src/simula/editor/Token.java:43-65 | definition: the style of each keyword; StyleCodeClasses states the three classes |
| EditorTokens.EqualsMeans | Drafts/src/simula/editor/Token.java:72-80 | two tokens are equal exactly when their keywords and values are, regardless of text; the relation is symmetric and reflexive |
| EditorTokens.Equals | Drafts/src/simula/editor/Token.java:72-80 | definition: equals branch by branch; EqualsMeans proves it is equality of keyword and value |

## Left out

- SimulaCompiler.java, _Process.java, _PROCEDURE.java, DummyStatement.java and the Java-file writers: the first three are I/O, coroutine scheduling and a thin base class. Emitted code is returned instead of written.
- Expression.java, Constant.java, TypeConversion.java, KeyWord.java, Global and _TXT.java are not part of this model. The model records only what an operand's own checking gives: its type, its code and its constant value. Constant folding is written out for integer and real operands. A keyword is a datatype with the names it prints. A text is the record (object, START, LENGTH, POS) that DEC_Lib uses.
- _Link.java is not part of this model. Heads.Linkage.Link stands for a link that is in no set.
- Heads: a set's members are a ghost list beside its links. Only the operations of _Head.java are modelled.
- DEC_Lib abort, exit and enterdebug end the program; today, daytime, dayno and cptime read the clock; insinglechar, initem and linecount do I/O: none is modelled.
- DEC_Lib checkreal and scanreal use floating point, and checkint, checkfrac, scanint and scanfrac depend on the text de-editors of _TXT.java: none is modelled.
- DEC_Lib change, frontstrip, lowc, upc, tsub and scanchar are not modelled. They are outside the text utilities listed above.
- _RT and RT: the error dialog (JOptionPane), console output, the verbose listing, stack traces, reflection helpers and the properties file are left out. An error is recorded as a message, and the parse goes on, as when the dialog is answered to continue.
- RuntimeOptions.FileSplit: File.getParent and File.getName split the path at its last '/' only. There is no path normalisation and no '\\' separator.
- RuntimeOptions.JavaVersion: the system property is a parameter.
- EditorTokens: getKeyWordCode is the ordinal of the KeyWord enum, which is not part of this model. The printed form of a value is an uninterpreted string.
- ProgramModules.ProgramModule.DoChecking: the module's own doChecking is a step in the trace only. Adding BASICIO's declarations to the declaration list (ProgramModule.java:100) and the external declarations (ProgramModule.java:81-84) are not modelled.
- ProgramModules.Dispatch: createMainProgramBlock is taken to give the main program block. The parsing itself is a ModuleHead value.
- ProcedureDeclarations.ProcDoChecking: the checking of the parameters, declarations, statements and labels is not part of this model.
- ProcedureDeclarations: getVirtualSpecification is not part of this model. A declaration records whether such a specification exists and whether it is protected.
- Parameters: Parameter.doChecking's call of type.doChecking is not modelled. The qualification of a reference type is checked in TypeChecking.
- Variables.Variable.DoChecking: the qualification of a connection type (Variable.java:152-154) and the detach side effect (Variable.java:156-162) are not modelled. editVariable is modelled only through its parts.
- Meanings: a connection block's own attribute search is not part of this model. Lookup passes over such a block to the enclosing scopes.
- CallProcedures.CodeCPF: the backLink side effect is not modelled. The source-line constant is taken to be rendered in decimal.
- Statements: the statements inside a block statement and the code that goes with them are not modelled.
- Statements.RangeCoding: the bounds are unbounded integers. The source's `int` loop at SwitchStatement.java:140 never ends when the upper bound is Integer.MAX_VALUE, because `i++` wraps; the model gives the finite list of case lines instead.
- UnaryOperations.EvaluatedInvolution: integer constants are unbounded. Java's `int` and `long` negation maps MIN_VALUE to itself, so "minus fixes only zero" holds only away from that value; the model does not state this edge.
- BlockDeclarations.BlockDoChecking: the doChecking of the block prefix and the assignment `this.prefix=blockPrefix.identifier` (BlockDeclaration.java:395-399) are not modelled; the prefix is the one the arena already records. The doChecking of the chained class parameters, the virtuals, the declarations and the statements (BlockDeclaration.java:405-408) is not modelled either: only the block's own fields, its labels and the virtual lists change. The assignment of a label's new Virtual to the block's own myVirtual (BlockDeclaration.java:420) is not modelled, since line 424 overwrites it.
- BlockDeclarations.CheckScopes: as BlockDeclarations.BlockDoChecking, the prefix's and the members' doChecking is not modelled.
- MaybeBlocks.MaybeChecked: the doChecking of the declarations and the statements, and doCheckLabelList (MaybeBlockDeclaration.java:132-134), are not modelled. doCheckLabelList is not part of this model. Only the block's external identifier, block level and checked mark change.
- MaybeBlocks.MaybeBlockDoChecking: as MaybeBlocks.MaybeChecked, the declarations', statements' and labels' checking is not modelled.
- TypeChecking.IsSubReferenceOf: answers false where the source throws ClassCastException (Type.java:139-142): when `this` names a declaration that is not a class, when `other` names one that is not a block declaration (a variable, a parameter, a label, a virtual match), or when `this` names a declaration and `other` a procedure. It also drops the "Undefined variable" error that findMeaning reports for an undefined qualification (DeclarationScope.java:61). TypeChecking.SubReferenceOutcome models both; IsConvertableTo, CommonRefType and CommonTypeConversion use the boolean answer only, and so do not carry the exception or the error either.
- TypeChecking.IsSubReferenceOfAsWritten: as TypeChecking.IsSubReferenceOf, false in place of the ClassCastException and without the findMeaning error; SubReferenceOutcome carries both.
- TypeChecking.SubReferenceCases: states the boolean answer only, which is false where the source throws (the cases TypeChecking.IsSubReferenceOf lists); SubReferenceOutcome gives the exception and the errors.
- TypeChecking.RefClass: keeps the meaning findMeaning returns and not the errors it reports; Meanings.FindMeaning states those errors.
- DecValues: Util.IsWhitespace is Java's Character.isWhitespace on ASCII only. The Unicode separators that String.stripLeading also removes (U+1680, U+2000-U+2006, U+2008-U+200A, U+2028, U+2029, U+205F, U+3000) are not modelled, so Hash, HashAsWritten and the item scanners treat them as ordinary characters.
- TypeChecking.CheckedType.GetQual: requires `checked`. Type.java:30 fails the `Util.ASSERT(CHECKED, ...)` on an unchecked type instead, an internal error the model does not return.
- DecLib.Depchar, DecLib.Compress, DecLib.MoveKept and DecLib.Keep: require a text that is not constant (Depchar only when it stores a character), and Depchar a text that is not notext. In the source, _TXT.putchar, which depchar calls at _DEC_Lib.java:432, raises a runtime error on a constant text, and depchar dereferences notext at _DEC_Lib.java:430; neither error is modelled.
- Parameters.LegalMode, Parameters.DefaultedMode, Parameters.Classify and Parameters.LegalModeMatchesTable: require `Checkable`, a kind and, for a simple or array parameter, a type. In the source a missing kind makes `switch(kind)` throw NullPointerException, and a missing type makes `type.isReferenceType()` throw it (Parameter.java:119-126); Parameter.DoChecking supplies the kind first, and the untyped case is not modelled.
- BlockDeclarations.CheckedFrom, BlockDeclarations.CheckedThrough, BlockDeclarations.BlockDoChecking, BlockDeclarations.CheckScopes and Statements.BlockStatement.DoChecking: require the block to have an enclosing scope. BlockDeclaration.java:424 calls `declaredIn.findVirtual`, which throws NullPointerException for a block without one; that case is not modelled.
- Variables.ArrayTypeErrors: compares the formal's and the actual's type by value, where Variable.java:210 compares the two Type objects by reference (`formalType!=actualParameter.type`). The two agree when equal types are the same object, as for the shared arithmetic type constants.
- Concurrency, Java threads and the virtual-thread option's effect are left out. The model is sequential, like the compiler.

## Findings

| source | as written | input that shows it | evidently intended | confidence | as-written member | corrected member |
|---|---|---|---|---|---|---|
| Simula/src/simula/compiler/utilities/Type.java:131-146 | isSubReferenceOf treats every key without a qualification (INTEGER, REAL, BOOLEAN, CHARACTER, TEXT, ...) as NONE, so each counts as a sub-reference of every class | INTEGER or TEXT against ref(A) | only an unqualified reference (NONE) is a sub-reference of every reference type | medium, not executed | TypeChecking.NonReferenceIsSubReferenceAsWritten | TypeChecking.SubReferenceCases |
| Simula/src/simula/compiler/utilities/Type.java:154-166 | commonTypeConversion takes TEXT as a reference type and, through isSubReferenceOf, gives TEXT and ref(A) the common type ref(A) with no error | commonTypeConversion(TEXT, ref(A)) | TEXT and a class reference are incompatible | medium, not executed | TypeChecking.TextCommonWithRefAsWritten | TypeChecking.CommonTypeConversionCases |
| Simula/src/simula/compiler/declaration/MaybeBlockDeclaration.java:106-109 | the walk stops at the first scope that is a compound statement AND a connection block, and so can stop at a connection block | a compound statement with labels directly inside a connection block | labels go to the nearest scope that is neither a declaration-free compound statement nor a connection block | medium, not executed | MaybeBlocks.AsWrittenMissesConnectionBlock | MaybeBlocks.MoveTargetIsNearest |
| Simula/src/simula/compiler/declaration/ProcedureDeclaration.java:81 | the duplicate-parameter error names the procedure (`identifier`) | procedure P with a parameter x, adding another x | the error names the parameter that is defined twice | low, not executed | ProcedureDeclarations.DuplicateMessageAsWrittenNamesProcedure | ProcedureDeclarations.ParamAdded |
| Simula/src/simula/compiler/expression/Variable.java:233 | the index type test dereferences the actual's type, which is null for an untyped actual | an array element whose index expression has no type | the untyped index is reported as an error | medium, not executed | Variables.IndexTypeAsWrittenThrowsOnUntyped | Variables.IndexTypeOk |
| Simula/src/simula/runtime/_DEC_Lib.java:580-584 | the guards are `p < LENGTH` and `p < 0` where the DEC Handbook definition has `p <= t.Length` and `p <= 0` | from(t, 0) is a range error and from(t, t.length) is notext | t for p ≤ 0, and the subtext from position p to the end for 1 ≤ p ≤ t.length | medium, not executed | DecValues.FromAsWrittenAtTheEnds | DecLib.From |
| Simula/src/simula/runtime/_DEC_Lib.java:1189-1194 | scanto leaves POS on the found character | two scanto calls for the same c on a text containing it: the second returns notext and does not move | POS just after the found character | medium, not executed | DecValues.ScanToAsWrittenStaysOnFound | DecLib.ScanTo |
| Simula/src/simula/runtime/_DEC_Lib.java:1253-1260 | skip reads the object from index 0 whatever START is, bounds the walk by LENGTH - START, and cuts LENGTH by the new POS | skip on "aab" with 'a' leaves POS 2 outside a text of LENGTH 1; skip on the subtext "aab" of "xaab" with 'a' skips nothing | POS moves to the first character from POS on that is not c, LENGTH stays, and the rest of the text from there is returned | medium, not executed | DecValues.SkipAsWrittenExamples | DecLib.Skip |
| Simula/src/simula/runtime/_DEC_Lib.java:774-777 | hash reads the first character of the stripped text, which is notext for a blank text | hash("  ", n) | a blank text hashes to its length modulo n | medium, not executed | DecValues.HashAsWrittenFailsOnBlank | DecValues.Hash |
| Simula/src/simula/runtime/_DEC_Lib.java:772 | hash strips only the leading blanks (stripLeading), where the DEC Handbook definition strips the text at both ends (frontstrip(t.Strip)), so trailing blanks are hashed | hash("ab  ", n) | a text hashes as its stripped form, "ab  " as "ab" with length 4 | medium, not executed | DecValues.HashAsWrittenKeepsTrailingBlanks | DecValues.Hash |
| Simula/src/simula/runtime/_DEC_Lib.java:727 | GETITEM lets any number of decimal points into a number item | getitem of "1.2.3" | at most one decimal point in a number item, so "1.2" is the item | medium, not executed | DecValues.ItemLengthAsWrittenTakesTwoPoints | DecValues.ItemLength |
