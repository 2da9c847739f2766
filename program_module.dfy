// Program modules (ProgramModule.java): what a compilation unit is (a main
// program, a prefixed block, a separately compiled class or procedure),
// whether it is executable, where its attribute file goes, and the order of
// its checking.

module ProgramModules {
  import opened Util
  import opened Types
  import opened Scopes
  import opened Variables

  /** What the parser sees at the start of a module, after the external
      declarations: an identifier (followed by CLASS or not), BEGIN, CLASS,
      or an optional type followed by PROCEDURE or by something else. */
  datatype ModuleHead =
    | IdentHead(ident: string, thenClass: bool)
    | BeginHead
    | ClassHead
    | TypeHead(typ: Option<Type>, thenProcedure: bool)

  /** The module declaration the constructor creates: a class (with the
      identifier read first as its prefix), a prefixed block (with that
      identifier as its block prefix), the main program block, a procedure
      of the type read first, or nothing when PROCEDURE is missing. */
  datatype ParsedModule =
    | ClassModule(prefix: Option<string>)
    | PrefixedBlockModule(blockPrefix: string)
    | MainProgramModule
    | ProcedureModule(typ: Option<Type>)
    | NoModule

  /** The constructor's choice of module. */
  function Dispatch(head: ModuleHead): (m: ParsedModule)
  {
    match head
    case IdentHead(ident, thenClass) => if thenClass then ClassModule(Some(ident)) else PrefixedBlockModule(ident)
    case BeginHead => MainProgramModule
    case ClassHead => ClassModule(None)
    case TypeHead(t, thenProcedure) => if thenProcedure then ProcedureModule(t) else NoModule
  }

  /** The declaration kind of the module. */
  function ModuleKind(m: ParsedModule): Option<BlockKind>
  {
    match m
    case ClassModule(_) => Some(ClassBlock)
    case PrefixedBlockModule(_) => Some(PrefixedBlock)
    case MainProgramModule => Some(SimulaProgram)
    case ProcedureModule(_) => Some(ProcedureBlock)
    case NoModule => None
  }

  /** isExecutable: a main program or a prefixed block. */
  predicate IsExecutable(k: BlockKind)
  {
    k == SimulaProgram || k == PrefixedBlock
  }

  /** getRelativeAttributeFileName: a class or a procedure compiled on its own
      leaves an attribute file in the packet's directory; nothing else
      does (null). */
  function RelativeAttributeFileName(k: BlockKind, packetName: string): (r: Option<string>)
    ensures r.Some? <==> k == ClassBlock || k == ProcedureBlock
    ensures k == ClassBlock ==> r == Some(packetName + "/CLASS.AF")
    ensures k == ProcedureBlock ==> r == Some(packetName + "/PROCEDURE.AF")
  {
    if k == ClassBlock then Some(packetName + "/CLASS.AF")
    else if k == ProcedureBlock then Some(packetName + "/PROCEDURE.AF")
    else None
  }

  /** A module with an attribute file is not executable, and the two
      attribute file names differ. */
  lemma AttributeFileOnlyForLibraryModules(k: BlockKind, packetName: string)
    ensures RelativeAttributeFileName(k, packetName).Some? ==> !IsExecutable(k)
    ensures RelativeAttributeFileName(ClassBlock, packetName) != RelativeAttributeFileName(ProcedureBlock, packetName)
  {
    var c := packetName + "/CLASS.AF";
    var p := packetName + "/PROCEDURE.AF";
    assert c[|packetName| + 1] == 'C' && p[|packetName| + 1] == 'P';
  }

  /** A module is executable exactly when it starts with BEGIN or with an
      identifier not followed by CLASS; it has an attribute file exactly
      when it is a class or a procedure. */
  lemma ExecutableIffBlockHead(head: ModuleHead, packetName: string)
    requires ModuleKind(Dispatch(head)).Some?
    ensures var k := ModuleKind(Dispatch(head)).value;
      (IsExecutable(k) <==> head.BeginHead? || (head.IdentHead? && !head.thenClass)) &&
      (RelativeAttributeFileName(k, packetName).Some? <==> !IsExecutable(k))
  {
  }

  /** An identifier read first is the prefix of the class or the prefixed
      block; a class without one has no prefix; a procedure module has the
      type read before PROCEDURE. */
  lemma IdentifierBecomesPrefix(head: ModuleHead)
    ensures var m := Dispatch(head);
      (m.ClassModule? ==> (m.prefix.Some? <==> head.IdentHead?) && (head.IdentHead? ==> m.prefix.value == head.ident)) &&
      (m.PrefixedBlockModule? ==> head.IdentHead? && m.blockPrefix == head.ident) &&
      (m.ProcedureModule? ==> head.TypeHead? && m.typ == head.typ) &&
      (m.MainProgramModule? <==> head.BeginHead?)
  {
  }

  /** Only a missing PROCEDURE after an optional type leaves the module
      unset. */
  lemma NoModuleIffProcedureMissing(head: ModuleHead)
    ensures Dispatch(head) == NoModule <==> head.TypeHead? && !head.thenProcedure
  {
  }

  /** What doChecking checks, in order. */
  datatype CheckStep = SysinChecked | SysoutChecked | ModuleChecked

  class ProgramModule {
    const unit: ParsedModule
    const sysin: Variable
    const sysout: Variable
    /** The checks done so far, in order. */
    var trace: seq<CheckStep>
    var checked: bool

    ghost predicate Valid()
      reads this, sysin, sysout
    {
      sysin != sysout && sysin.Valid() && sysout.Valid() &&
      (checked ==> sysin.checked && sysout.checked)
    }

    /** The module the head selects, with the variables sysin and sysout
        (whose meanings in BASICIO's connection blocks are given). */
    constructor (head: ModuleHead, sysinDecl: Option<Declared>, sysoutDecl: Option<Declared>)
      ensures unit == Dispatch(head) && trace == [] && !checked && Valid()
      ensures fresh(sysin) && fresh(sysout)
      ensures sysin.identifier == "sysin" && sysin.params.None? && sysin.declaredAs == sysinDecl
      ensures sysout.identifier == "sysout" && sysout.params.None? && sysout.declaredAs == sysoutDecl
    {
      unit := Dispatch(head);
      sysin := new Variable("sysin", None, sysinDecl);
      sysout := new Variable("sysout", None, sysoutDecl);
      trace := [];
      checked := false;
    }

    /** isExecutable of this module. */
    predicate Executable()
    {
      ModuleKind(unit).Some? && IsExecutable(ModuleKind(unit).value)
    }

    /** doChecking: sysin, then sysout, then the module, once.  When no
        module was parsed, `module.doChecking()` throws NullPointerException
        after sysin and sysout are checked: `ok` is false and the program
        is not marked checked. */
    method DoChecking() returns (ok: bool)
      requires Valid()
      modifies this, sysin, sysout
      ensures Valid() && sysin.checked && sysout.checked
      ensures ok <==> old(checked) || unit != NoModule
      ensures checked <==> ok
      ensures old(checked) ==> trace == old(trace)
      ensures !old(checked) && ok ==> trace == old(trace) + [SysinChecked, SysoutChecked, ModuleChecked]
      ensures !old(checked) && !ok ==> trace == old(trace) + [SysinChecked, SysoutChecked]
    {
      if checked {
        return true;
      }
      var errors, dims, fatal := sysin.DoChecking();
      trace := trace + [SysinChecked];
      errors, dims, fatal := sysout.DoChecking();
      trace := trace + [SysoutChecked];
      if unit == NoModule {
        return false;
      }
      trace := trace + [ModuleChecked];
      checked := true;
      ok := true;
    }
  }
}
