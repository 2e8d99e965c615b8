/** The `.add` registration procedures of hydrogen_cloud/psi.ts.  Each one
    registers, on a GPU kernel session, the helpers its function calls and
    then the function itself, with its declared argument and return types.
    The session is modelled by the log of the registrations it receives; a
    helper whose `.add` lives in another module appears as one opaque entry
    for that helper, and repeated registrations are kept, not merged. */
module Registration {

  /** The GPU type tags the code declares: "Integer", "Float", "Array(n)". */
  datatype TypeTag = Integer | Float | Array(length: nat)

  /** The signature passed to addFunction: named argument tags, in the order
      the object literal lists them, and a return tag. */
  datatype Signature = Signature(argumentTypes: seq<(string, TypeTag)>, returnType: TypeTag)

  /** The functions whose `.add` the procedures call: the four of this module
      and the helpers imported from the math, complex and vector modules. */
  datatype FunctionId =
    | Laguerre | Legendre | SphHarm | PsiOrbital
    | Combination | Factorial | Permutation | Product | Arctan2
    | ComplexConj | ComplexScale | ComplexExp | ComplexMult
    | VectorInclination | VectorAlzimuth

  /** One registration: a function of this module with its signature, or
      the (unseen) `.add` of a helper from another module. */
  datatype LogEntry = Registered(id: FunctionId, signature: Signature) | Opaque(id: FunctionId)

  datatype Option<T> = None | Some(value: T)

  /** The GPU kernel session; `log` is every registration received so far. */
  class GPUKernel {
    var log: seq<LogEntry>

    constructor()
      ensures log == []
    {
      log := [];
    }

    /** `gpu.addFunction(f, signature)`. */
    method AddFunction(id: FunctionId, signature: Signature)
      modifies this
      ensures log == old(log) + [Registered(id, signature)]
    {
      log := log + [Registered(id, signature)];
    }
  }

  /** The `.add` of a helper imported from another module (combination,
      factorial, permutation, product, arctan2, complex_*, vector_*). */
  method AddHelper(gpu: GPUKernel, id: FunctionId)
    modifies gpu
    ensures gpu.log == old(gpu.log) + [Opaque(id)]
  {
    gpu.log := gpu.log + [Opaque(id)];
  }

  // ------------------------------------------------------------- Signatures

  const LaguerreSignature: Signature := Signature([("n", Integer), ("k", Integer), ("x", Float)], Float)
  const LegendreSignature: Signature := Signature([("m", Integer), ("l", Integer), ("x", Float)], Float)
  const SphHarmSignature: Signature :=
    Signature([("m", Integer), ("l", Integer), ("theta", Float), ("phi", Float)], Array(2))
  const PsiOrbitalSignature: Signature :=
    Signature([("n", Integer), ("l", Integer), ("m", Integer), ("x", Array(3)), ("t", Float)], Array(2))

  /** The signature the code declares for each function of this module. */
  function DeclaredSignature(id: FunctionId): Option<Signature>
  {
    match id
    case Laguerre => Some(LaguerreSignature)
    case Legendre => Some(LegendreSignature)
    case SphHarm => Some(SphHarmSignature)
    case PsiOrbital => Some(PsiOrbitalSignature)
    case _ => None
  }

  /** The registered functions each function's body calls: laguerre calls
      combination and factorial; legendre product, combination and
      permutation; sph_harm product, complex_conj, complex_scale, complex_exp
      and legendre; psi_orbital product, vector_inclination, vector_alzimuth,
      laguerre, sph_harm, complex_mult and complex_exp.  The helpers' own
      callees are not part of this model. */
  function DirectCallees(id: FunctionId): set<FunctionId>
  {
    match id
    case Laguerre => {Combination, Factorial}
    case Legendre => {Product, Combination, Permutation}
    case SphHarm => {Product, ComplexConj, ComplexScale, ComplexExp, Legendre}
    case PsiOrbital => {Product, VectorInclination, VectorAlzimuth, Laguerre, SphHarm, ComplexMult, ComplexExp}
    case _ => {}
  }

  // ----------------------------------------------------- Log invariants

  /** The functions registered in log[..j]. */
  function NamesBefore(log: seq<LogEntry>, j: nat): set<FunctionId>
    requires j <= |log|
  {
    set k | 0 <= k < j :: log[k].id
  }

  function Names(log: seq<LogEntry>): set<FunctionId>
  {
    NamesBefore(log, |log|)
  }

  /** Every function registered in `log` finds each function its body calls
      already registered, either in `prior` or earlier in `log`. */
  ghost predicate DependenciesFirstAfter(prior: set<FunctionId>, log: seq<LogEntry>)
  {
    forall j :: 0 <= j < |log| && log[j].Registered? ==> DirectCallees(log[j].id) <= prior + NamesBefore(log, j)
  }

  ghost predicate DependenciesFirst(log: seq<LogEntry>)
  {
    DependenciesFirstAfter({}, log)
  }

  /** Every function registered in `log` carries the signature the code declares for it. */
  ghost predicate Consistent(log: seq<LogEntry>)
  {
    forall j :: 0 <= j < |log| && log[j].Registered? ==> DeclaredSignature(log[j].id) == Some(log[j].signature)
  }

  /** The functions registered with a signature, in order. */
  function RegisteredFunctions(log: seq<LogEntry>): seq<FunctionId>
  {
    if log == [] then []
    else (if log[0].Registered? then [log[0].id] else []) + RegisteredFunctions(log[1..])
  }

  lemma NamesBeforeAppend(a: seq<LogEntry>, b: seq<LogEntry>, j: nat)
    requires j <= |b|
    ensures NamesBefore(a + b, |a| + j) == Names(a) + NamesBefore(b, j)
  {
    var ab := a + b;
    forall s | s in NamesBefore(ab, |a| + j)
      ensures s in Names(a) + NamesBefore(b, j)
    {
      var k :| 0 <= k < |a| + j && ab[k].id == s;
      if k < |a| {
        assert a[k].id == s;
      } else {
        assert b[k - |a|].id == s;
      }
    }
    forall s | s in Names(a) + NamesBefore(b, j)
      ensures s in NamesBefore(ab, |a| + j)
    {
      if s in Names(a) {
        var k :| 0 <= k < |a| && a[k].id == s;
        assert ab[k].id == s;
      } else {
        var k :| 0 <= k < j && b[k].id == s;
        assert ab[|a| + k].id == s;
      }
    }
  }

  lemma NamesBeforePrefix(a: seq<LogEntry>, b: seq<LogEntry>, j: nat)
    requires j <= |a|
    ensures NamesBefore(a + b, j) == NamesBefore(a, j)
  {
    var ab := a + b;
    assert forall k :: 0 <= k < j ==> ab[k] == a[k];
  }

  /** Registering `a` and then `b` keeps dependencies first when `b` finds
      its dependencies among what `a` registered. */
  lemma {:induction false} DependenciesFirstAppend(prior: set<FunctionId>, a: seq<LogEntry>, b: seq<LogEntry>)
    requires DependenciesFirstAfter(prior, a)
    requires DependenciesFirstAfter(prior + Names(a), b)
    ensures DependenciesFirstAfter(prior, a + b)
  {
    var ab := a + b;
    forall j | 0 <= j < |ab| && ab[j].Registered?
      ensures DirectCallees(ab[j].id) <= prior + NamesBefore(ab, j)
    {
      if j < |a| {
        assert ab[j] == a[j];
        NamesBeforePrefix(a, b, j);
      } else {
        assert ab[j] == b[j - |a|];
        NamesBeforeAppend(a, b, j - |a|);
      }
    }
  }

  lemma {:induction false} ConsistentAppend(a: seq<LogEntry>, b: seq<LogEntry>)
    requires Consistent(a) && Consistent(b)
    ensures Consistent(a + b)
  {
    var ab := a + b;
    forall j | 0 <= j < |ab| && ab[j].Registered?
      ensures DeclaredSignature(ab[j].id) == Some(ab[j].signature)
    {
      if j < |a| {
        assert ab[j] == a[j];
      } else {
        assert ab[j] == b[j - |a|];
      }
    }
  }

  lemma {:induction false} RegisteredFunctionsAppend(a: seq<LogEntry>, b: seq<LogEntry>)
    ensures RegisteredFunctions(a + b) == RegisteredFunctions(a) + RegisteredFunctions(b)
  {
    if a == [] {
      assert a + b == b;
    } else {
      var ab := a + b;
      assert ab != [] && ab[0] == a[0];
      assert ab[1..] == a[1..] + b;
      RegisteredFunctionsAppend(a[1..], b);
      calc {
        RegisteredFunctions(ab);
        (if a[0].Registered? then [a[0].id] else []) + RegisteredFunctions(a[1..] + b);
        (if a[0].Registered? then [a[0].id] else []) + (RegisteredFunctions(a[1..]) + RegisteredFunctions(b));
        RegisteredFunctions(a) + RegisteredFunctions(b);
      }
    }
  }

  // ------------------------------------------- What each `.add` registers

  /** The log of a run of helper `.add` calls, in order. */
  function HelperAdds(ids: seq<FunctionId>): (r: seq<LogEntry>)
    ensures |r| == |ids|
    ensures forall j :: 0 <= j < |r| ==> r[j] == Opaque(ids[j])
  {
    seq(|ids|, j requires 0 <= j < |ids| => Opaque(ids[j]))
  }

  function LaguerreRegistration(): seq<LogEntry>
  {
    HelperAdds([Combination, Factorial]) + [Registered(Laguerre, LaguerreSignature)]
  }

  function LegendreRegistration(): seq<LogEntry>
  {
    HelperAdds([Product, Combination, Permutation]) + [Registered(Legendre, LegendreSignature)]
  }

  function SphHarmRegistration(): seq<LogEntry>
  {
    HelperAdds([Product, ComplexConj, ComplexScale, ComplexExp])
    + LegendreRegistration()
    + [Registered(SphHarm, SphHarmSignature)]
  }

  function PsiOrbitalRegistration(): seq<LogEntry>
  {
    HelperAdds([Arctan2, Product])
    + LaguerreRegistration()
    + SphHarmRegistration()
    + HelperAdds([ComplexMult, ComplexExp, VectorInclination, VectorAlzimuth])
    + [Registered(PsiOrbital, PsiOrbitalSignature)]
  }

  // --------------------------------------------------- The `.add` methods

  /** `laguerre.add(gpu)`. */
  method LaguerreAdd(gpu: GPUKernel)
    modifies gpu
    ensures gpu.log == old(gpu.log) + LaguerreRegistration()
    ensures DependenciesFirst(old(gpu.log)) ==> DependenciesFirst(gpu.log)
    ensures Consistent(old(gpu.log)) ==> Consistent(gpu.log)
  {
    ghost var start := gpu.log;
    AddHelper(gpu, Combination);
    AddHelper(gpu, Factorial);
    gpu.AddFunction(Laguerre, LaguerreSignature);
    assert Preserves(start, LaguerreRegistration()) by {
      LaguerreRegistrationDependenciesFirst();
      LaguerreRegistrationSignatures();
      KeepsInvariants(start, LaguerreRegistration());
    }
  }

  /** `legendre.add(gpu)`. */
  method LegendreAdd(gpu: GPUKernel)
    modifies gpu
    ensures gpu.log == old(gpu.log) + LegendreRegistration()
    ensures DependenciesFirst(old(gpu.log)) ==> DependenciesFirst(gpu.log)
    ensures Consistent(old(gpu.log)) ==> Consistent(gpu.log)
  {
    ghost var start := gpu.log;
    AddHelper(gpu, Product);
    AddHelper(gpu, Combination);
    AddHelper(gpu, Permutation);
    gpu.AddFunction(Legendre, LegendreSignature);
    assert Preserves(start, LegendreRegistration()) by {
      LegendreRegistrationDependenciesFirst();
      LegendreRegistrationSignatures();
      KeepsInvariants(start, LegendreRegistration());
    }
  }

  /** `sph_harm.add(gpu)`. */
  method SphHarmAdd(gpu: GPUKernel)
    modifies gpu
    ensures gpu.log == old(gpu.log) + SphHarmRegistration()
    ensures DependenciesFirst(old(gpu.log)) ==> DependenciesFirst(gpu.log)
    ensures Consistent(old(gpu.log)) ==> Consistent(gpu.log)
  {
    ghost var start := gpu.log;
    AddHelper(gpu, Product);
    AddHelper(gpu, ComplexConj);
    AddHelper(gpu, ComplexScale);
    AddHelper(gpu, ComplexExp);
    LegendreAdd(gpu);
    gpu.AddFunction(SphHarm, SphHarmSignature);
    assert Preserves(start, SphHarmRegistration()) by {
      SphHarmRegistrationDependenciesFirst();
      SphHarmRegistrationSignatures();
      KeepsInvariants(start, SphHarmRegistration());
    }
  }

  /** `psi_orbital.add(gpu)`; the commented-out `vector_mag.add` is not called. */
  method PsiOrbitalAdd(gpu: GPUKernel)
    modifies gpu
    ensures gpu.log == old(gpu.log) + PsiOrbitalRegistration()
    ensures DependenciesFirst(old(gpu.log)) ==> DependenciesFirst(gpu.log)
    ensures Consistent(old(gpu.log)) ==> Consistent(gpu.log)
  {
    ghost var start := gpu.log;
    AddHelper(gpu, Arctan2);
    AddHelper(gpu, Product);
    LaguerreAdd(gpu);
    SphHarmAdd(gpu);
    AddHelper(gpu, ComplexMult);
    AddHelper(gpu, ComplexExp);
    AddHelper(gpu, VectorInclination);
    AddHelper(gpu, VectorAlzimuth);
    PsiOrbitalRegistrationSteps(start);
    gpu.AddFunction(PsiOrbital, PsiOrbitalSignature);
    assert Preserves(start, PsiOrbitalRegistration()) by {
      PsiOrbitalRegistrationDependenciesFirst();
      PsiOrbitalRegistrationSignatures();
      KeepsInvariants(start, PsiOrbitalRegistration());
    }
  }

  /** The registrations of psi_orbital.add, one call at a time. */
  lemma PsiOrbitalRegistrationSteps(start: seq<LogEntry>)
    ensures start + [Opaque(Arctan2)] + [Opaque(Product)] + LaguerreRegistration() + SphHarmRegistration()
            + [Opaque(ComplexMult)] + [Opaque(ComplexExp)] + [Opaque(VectorInclination)] + [Opaque(VectorAlzimuth)]
            + [Registered(PsiOrbital, PsiOrbitalSignature)]
            == start + PsiOrbitalRegistration()
  {
    var leading := HelperAdds([Arctan2, Product]);
    var trailing := HelperAdds([ComplexMult, ComplexExp, VectorInclination, VectorAlzimuth]);
    assert [Opaque(Arctan2)] + [Opaque(Product)] == leading;
    assert [Opaque(ComplexMult)] + [Opaque(ComplexExp)] + [Opaque(VectorInclination)] + [Opaque(VectorAlzimuth)] == trailing;
  }

  // ------------------------------------------------------------ Properties

  /** Appending `added` to `start` keeps both log invariants. */
  ghost predicate Preserves(start: seq<LogEntry>, added: seq<LogEntry>)
  {
    && (DependenciesFirst(start) ==> DependenciesFirst(start + added))
    && (Consistent(start) ==> Consistent(start + added))
  }

  /** A registration sequence that is dependencies-first and consistent on
      its own keeps both invariants of any log it is appended to. */
  lemma KeepsInvariants(start: seq<LogEntry>, added: seq<LogEntry>)
    requires DependenciesFirst(added) && Consistent(added)
    ensures Preserves(start, added)
  {
    if DependenciesFirst(start) {
      AppendClosed(start, added);
    }
    if Consistent(start) {
      ConsistentAppend(start, added);
    }
  }

  /** A run of helper `.add` calls registers the helpers named, and no
      function with a signature. */
  lemma {:induction false} HelperAddsFacts(ids: seq<FunctionId>)
    ensures forall k :: 0 <= k < |ids| ==> ids[k] in Names(HelperAdds(ids))
    ensures DependenciesFirst(HelperAdds(ids)) && Consistent(HelperAdds(ids))
    ensures RegisteredFunctions(HelperAdds(ids)) == []
  {
    var r := HelperAdds(ids);
    forall k | 0 <= k < |ids| ensures ids[k] in Names(r) {
      assert r[k].id == ids[k];
    }
    if ids != [] {
      assert r[1..] == HelperAdds(ids[1..]);
      HelperAddsFacts(ids[1..]);
    }
  }

  /** The closing `gpu.addFunction` of a procedure, on its own. */
  lemma OwnEntry(id: FunctionId, signature: Signature)
    requires DeclaredSignature(id) == Some(signature)
    ensures Consistent([Registered(id, signature)])
    ensures id in Names([Registered(id, signature)])
    ensures RegisteredFunctions([Registered(id, signature)]) == [id]
  {
    var own := [Registered(id, signature)];
    assert own[1..] == [];
    assert own[0].id == id;
  }

  lemma NamesAppend(a: seq<LogEntry>, b: seq<LogEntry>)
    ensures Names(a + b) == Names(a) + Names(b)
  {
    NamesBeforeAppend(a, b, |b|);
  }

  lemma InNamesLeft(a: seq<LogEntry>, b: seq<LogEntry>, id: FunctionId)
    requires id in Names(a)
    ensures id in Names(a + b)
  {
    NamesAppend(a, b);
  }

  lemma InNamesRight(a: seq<LogEntry>, b: seq<LogEntry>, id: FunctionId)
    requires id in Names(b)
    ensures id in Names(a + b)
  {
    NamesAppend(a, b);
  }

  /** Two logs that are each dependencies-first stay so one after the other. */
  lemma AppendClosed(a: seq<LogEntry>, b: seq<LogEntry>)
    requires DependenciesFirst(a) && DependenciesFirst(b)
    ensures DependenciesFirst(a + b)
  {
    assert DependenciesFirstAfter({} + Names(a), b);
    DependenciesFirstAppend({}, a, b);
  }

  /** Closing with `gpu.addFunction(f, …)` keeps a log dependencies-first
      when every function f's body calls is already registered. */
  lemma AppendOwn(front: seq<LogEntry>, id: FunctionId, signature: Signature)
    requires DependenciesFirst(front)
    requires DirectCallees(id) <= Names(front)
    ensures DependenciesFirst(front + [Registered(id, signature)])
  {
    var own := [Registered(id, signature)];
    assert NamesBefore(own, 0) == {};
    assert DependenciesFirstAfter({} + Names(front), own);
    DependenciesFirstAppend({}, front, own);
  }

  /** laguerre.add registers combination and factorial before laguerre. */
  lemma LaguerreRegistrationDependenciesFirst()
    ensures DependenciesFirst(LaguerreRegistration())
    ensures Laguerre in Names(LaguerreRegistration())
  {
    var ids := [Combination, Factorial];
    var own := [Registered(Laguerre, LaguerreSignature)];
    HelperAddsFacts(ids);
    assert ids[0] == Combination && ids[1] == Factorial;
    AppendOwn(HelperAdds(ids), Laguerre, LaguerreSignature);
    OwnEntry(Laguerre, LaguerreSignature);
    InNamesRight(HelperAdds(ids), own, Laguerre);
  }

  /** laguerre.add registers laguerre, last, with its declared tags
      `{n: Integer, k: Integer, x: Float} -> Float`, and nothing else with a signature. */
  lemma LaguerreRegistrationSignatures()
    ensures Consistent(LaguerreRegistration())
    ensures RegisteredFunctions(LaguerreRegistration()) == [Laguerre]
    ensures LaguerreRegistration()[|LaguerreRegistration()| - 1] == Registered(Laguerre, LaguerreSignature)
  {
    var helpers := HelperAdds([Combination, Factorial]);
    var own := [Registered(Laguerre, LaguerreSignature)];
    HelperAddsFacts([Combination, Factorial]);
    OwnEntry(Laguerre, LaguerreSignature);
    ConsistentAppend(helpers, own);
    RegisteredFunctionsAppend(helpers, own);
  }

  /** legendre.add registers product, combination and permutation before legendre. */
  lemma LegendreRegistrationDependenciesFirst()
    ensures DependenciesFirst(LegendreRegistration())
    ensures Legendre in Names(LegendreRegistration())
  {
    var ids := [Product, Combination, Permutation];
    var own := [Registered(Legendre, LegendreSignature)];
    HelperAddsFacts(ids);
    assert ids[0] == Product && ids[1] == Combination && ids[2] == Permutation;
    AppendOwn(HelperAdds(ids), Legendre, LegendreSignature);
    OwnEntry(Legendre, LegendreSignature);
    InNamesRight(HelperAdds(ids), own, Legendre);
  }

  /** legendre.add registers legendre, last, with its declared tags
      `{m: Integer, l: Integer, x: Float} -> Float`, and nothing else with a signature. */
  lemma LegendreRegistrationSignatures()
    ensures Consistent(LegendreRegistration())
    ensures RegisteredFunctions(LegendreRegistration()) == [Legendre]
    ensures LegendreRegistration()[|LegendreRegistration()| - 1] == Registered(Legendre, LegendreSignature)
  {
    var helpers := HelperAdds([Product, Combination, Permutation]);
    var own := [Registered(Legendre, LegendreSignature)];
    HelperAddsFacts([Product, Combination, Permutation]);
    OwnEntry(Legendre, LegendreSignature);
    ConsistentAppend(helpers, own);
    RegisteredFunctionsAppend(helpers, own);
  }

  lemma SphHarmCalleesIn(known: set<FunctionId>)
    requires Product in known && ComplexConj in known && ComplexScale in known
    requires ComplexExp in known && Legendre in known
    ensures DirectCallees(SphHarm) <= known
  {
  }

  /** sph_harm.add registers its helpers and, through legendre.add, legendre
      before sph_harm. */
  lemma SphHarmRegistrationDependenciesFirst()
    ensures DependenciesFirst(SphHarmRegistration())
    ensures SphHarm in Names(SphHarmRegistration())
  {
    var ids := [Product, ComplexConj, ComplexScale, ComplexExp];
    var helpers := HelperAdds(ids);
    var front := helpers + LegendreRegistration();
    var own := [Registered(SphHarm, SphHarmSignature)];
    assert DependenciesFirst(front) by {
      HelperAddsFacts(ids);
      LegendreRegistrationDependenciesFirst();
      AppendClosed(helpers, LegendreRegistration());
    }
    assert DirectCallees(SphHarm) <= Names(front) by {
      HelperAddsFacts(ids);
      assert ids[0] == Product && ids[1] == ComplexConj && ids[2] == ComplexScale && ids[3] == ComplexExp;
      InNamesLeft(helpers, LegendreRegistration(), Product);
      InNamesLeft(helpers, LegendreRegistration(), ComplexConj);
      InNamesLeft(helpers, LegendreRegistration(), ComplexScale);
      InNamesLeft(helpers, LegendreRegistration(), ComplexExp);
      LegendreRegistrationDependenciesFirst();
      InNamesRight(helpers, LegendreRegistration(), Legendre);
      SphHarmCalleesIn(Names(front));
    }
    AppendOwn(front, SphHarm, SphHarmSignature);
    OwnEntry(SphHarm, SphHarmSignature);
    InNamesRight(front, own, SphHarm);
  }

  /** sph_harm.add registers legendre and then sph_harm, last, with their
      declared tags; sph_harm's are `{m: Integer, l: Integer, theta: Float,
      phi: Float} -> Array(2)`. */
  lemma SphHarmRegistrationSignatures()
    ensures Consistent(SphHarmRegistration())
    ensures RegisteredFunctions(SphHarmRegistration()) == [Legendre, SphHarm]
    ensures SphHarmRegistration()[|SphHarmRegistration()| - 1] == Registered(SphHarm, SphHarmSignature)
  {
    var ids := [Product, ComplexConj, ComplexScale, ComplexExp];
    var helpers := HelperAdds(ids);
    var front := helpers + LegendreRegistration();
    var own := [Registered(SphHarm, SphHarmSignature)];
    assert Consistent(front) && RegisteredFunctions(front) == [Legendre] by {
      HelperAddsFacts(ids);
      LegendreRegistrationSignatures();
      ConsistentAppend(helpers, LegendreRegistration());
      RegisteredFunctionsAppend(helpers, LegendreRegistration());
    }
    OwnEntry(SphHarm, SphHarmSignature);
    ConsistentAppend(front, own);
    RegisteredFunctionsAppend(front, own);
  }

  lemma PsiOrbitalCalleesIn(known: set<FunctionId>)
    requires Product in known && Laguerre in known && SphHarm in known
    requires ComplexMult in known && ComplexExp in known && VectorInclination in known && VectorAlzimuth in known
    ensures DirectCallees(PsiOrbital) <= known
  {
  }

  /** psi_orbital.add registers (through laguerre.add and sph_harm.add)
      every function psi_orbital calls before psi_orbital. */
  lemma PsiOrbitalRegistrationDependenciesFirst()
    ensures DependenciesFirst(PsiOrbitalRegistration())
  {
    var leadingIds := [Arctan2, Product];
    var trailingIds := [ComplexMult, ComplexExp, VectorInclination, VectorAlzimuth];
    var leading := HelperAdds(leadingIds);
    var trailing := HelperAdds(trailingIds);
    var withLaguerre := leading + LaguerreRegistration();
    var withSphHarm := withLaguerre + SphHarmRegistration();
    var front := withSphHarm + trailing;
    assert DependenciesFirst(front) by {
      HelperAddsFacts(leadingIds);
      HelperAddsFacts(trailingIds);
      LaguerreRegistrationDependenciesFirst();
      SphHarmRegistrationDependenciesFirst();
      AppendClosed(leading, LaguerreRegistration());
      AppendClosed(withLaguerre, SphHarmRegistration());
      AppendClosed(withSphHarm, trailing);
    }
    assert {Product, Laguerre, SphHarm} <= Names(withSphHarm) by {
      HelperAddsFacts(leadingIds);
      assert leadingIds[1] == Product;
      InNamesLeft(leading, LaguerreRegistration(), Product);
      LaguerreRegistrationDependenciesFirst();
      InNamesRight(leading, LaguerreRegistration(), Laguerre);
      InNamesLeft(withLaguerre, SphHarmRegistration(), Product);
      InNamesLeft(withLaguerre, SphHarmRegistration(), Laguerre);
      SphHarmRegistrationDependenciesFirst();
      InNamesRight(withLaguerre, SphHarmRegistration(), SphHarm);
    }
    assert DirectCallees(PsiOrbital) <= Names(front) by {
      HelperAddsFacts(trailingIds);
      assert trailingIds[0] == ComplexMult && trailingIds[1] == ComplexExp;
      assert trailingIds[2] == VectorInclination && trailingIds[3] == VectorAlzimuth;
      InNamesLeft(withSphHarm, trailing, Product);
      InNamesLeft(withSphHarm, trailing, Laguerre);
      InNamesLeft(withSphHarm, trailing, SphHarm);
      InNamesRight(withSphHarm, trailing, ComplexMult);
      InNamesRight(withSphHarm, trailing, ComplexExp);
      InNamesRight(withSphHarm, trailing, VectorInclination);
      InNamesRight(withSphHarm, trailing, VectorAlzimuth);
      PsiOrbitalCalleesIn(Names(front));
    }
    AppendOwn(front, PsiOrbital, PsiOrbitalSignature);
  }

  /** psi_orbital.add registers with a signature exactly laguerre, legendre,
      sph_harm and psi_orbital, in this order, each with its declared tags,
      psi_orbital's being `{n: Integer, l: Integer, m: Integer, x: Array(3),
      t: Float} -> Array(2)`, and psi_orbital last. */
  lemma PsiOrbitalRegistrationSignatures()
    ensures Consistent(PsiOrbitalRegistration())
    ensures RegisteredFunctions(PsiOrbitalRegistration()) == [Laguerre, Legendre, SphHarm, PsiOrbital]
    ensures PsiOrbitalRegistration()[|PsiOrbitalRegistration()| - 1] == Registered(PsiOrbital, PsiOrbitalSignature)
  {
    var leadingIds := [Arctan2, Product];
    var trailingIds := [ComplexMult, ComplexExp, VectorInclination, VectorAlzimuth];
    var leading := HelperAdds(leadingIds);
    var trailing := HelperAdds(trailingIds);
    var withLaguerre := leading + LaguerreRegistration();
    var withSphHarm := withLaguerre + SphHarmRegistration();
    var front := withSphHarm + trailing;
    var own := [Registered(PsiOrbital, PsiOrbitalSignature)];
    assert Consistent(withLaguerre) && RegisteredFunctions(withLaguerre) == [Laguerre] by {
      HelperAddsFacts(leadingIds);
      LaguerreRegistrationSignatures();
      ConsistentAppend(leading, LaguerreRegistration());
      RegisteredFunctionsAppend(leading, LaguerreRegistration());
    }
    assert Consistent(withSphHarm) && RegisteredFunctions(withSphHarm) == [Laguerre, Legendre, SphHarm] by {
      SphHarmRegistrationSignatures();
      ConsistentAppend(withLaguerre, SphHarmRegistration());
      RegisteredFunctionsAppend(withLaguerre, SphHarmRegistration());
    }
    assert Consistent(front) && RegisteredFunctions(front) == [Laguerre, Legendre, SphHarm] by {
      HelperAddsFacts(trailingIds);
      ConsistentAppend(withSphHarm, trailing);
      RegisteredFunctionsAppend(withSphHarm, trailing);
    }
    OwnEntry(PsiOrbital, PsiOrbitalSignature);
    ConsistentAppend(front, own);
    RegisteredFunctionsAppend(front, own);
  }
}
