/**
 * The immersed-boundary unit `ImBound`: its options, the padding of the
 * caller's variable list, the choice between stub, rigid and viscoelastic
 * routines, and the three calls that forward to the chosen routines.
 *
 * The routines themselves are modelled in RigidForcing, ViscoForceFlow,
 * ViscoAdvect and ClassicalSearch; here a slot records which module's
 * routine is installed, and a forwarding call reports which routine ran.
 * Clock readings and the values the mapping routines return are parameters.
 */
module ImBound {

  datatype Option<T> = None | Some(value: T)

  /** A value of the options dictionary: the defaults are booleans, integers and strings. */
  datatype Value = Bool(b: bool) | Int(i: int) | Str(s: string)

  /** Python's truth value of an option. */
  predicate Truthy(v: Value) {
    match v
    case Bool(b) => b
    case Int(i) => i != 0
    case Str(s) => s != ""
  }

  /** How a call ends: normally, or with the exception it raises. */
  datatype Outcome = Done | ValueError | KeyError | AttributeError | UnboundLocalError

  /** The defaults of the options dictionary. */
  const Defaults: map<string, Value> := map[
    "with_ib" := Bool(false), "mapping_type" := Str("ann"), "verbose" := Bool(false),
    "ntrees" := Int(20), "nquery_trees" := Int(2), "nquery_trace" := Int(30),
    "ib_type" := Str("rigid"), "lset_redistance" := Int(3), "extrap_solid" := Int(20),
    "monitor" := Bool(false), "nthreads" := Int(1), "backend" := Str("serial")]

  /**
   * The options after the user's dictionary is read: every user key overrides
   * the default of that name, unknown keys are kept, and every other default
   * stays.  An absent or empty user dictionary leaves the defaults.
   */
  function Options(user: map<string, Value>): (r: map<string, Value>)
    ensures r.Keys == Defaults.Keys + user.Keys
    ensures forall k :: k in user ==> r[k] == user[k]
    ensures forall k :: k in Defaults && k !in user ==> r[k] == Defaults[k]
  {
    Defaults + user
  }

  /** `imbound_vars.extend([None] * (4 - len(imbound_vars)))`: a list longer than four is left as it is. */
  function Padded(vars: seq<Option<string>>): (r: seq<Option<string>>)
    ensures |vars| <= 4 ==> |r| == 4
    ensures |vars| > 4 ==> r == vars
    ensures |vars| <= |r| && r[..|vars|] == vars
    ensures forall k :: |vars| <= k < |r| ==> r[k] == None
  {
    if |vars| < 4 then vars + seq(4 - |vars|, _ => None) else vars
  }

  /** Padding a padded list changes nothing, so the shared default list stays four `None`s however often it is used. */
  lemma PaddedIdempotent(vars: seq<Option<string>>)
    ensures Padded(Padded(vars)) == Padded(vars)
    ensures Padded([]) == [None, None, None, None]
  {
    assert |Padded(vars)| >= 4;
  }

  /** The module whose routine fills a slot. */
  datatype Routine = Stub | Rigid | Visco

  /** The search functions of the mapping dictionary. */
  datatype Search = Classical | Ann | Shapely

  /** `self._mapping_type[mapping_type]`: `None` is the KeyError of an unknown key. */
  function SearchOf(v: Value): (r: Option<Search>)
    ensures r.Some? <==> v in {Str("classical"), Str("ann"), Str("shapely")}
    ensures r == Some(Classical) <==> v == Str("classical")
  {
    match v
    case Str(s) =>
      if s == "classical" then Some(Classical)
      else if s == "ann" then Some(Ann)
      else if s == "shapely" then Some(Shapely)
      else None
    case _ => None
  }

  /** The routine slots and the search function after construction; a slot the constructor never sets is `None`. */
  datatype Slots = Slots(force: Option<Routine>, mapping: Option<Routine>, advect: Option<Routine>, search: Option<Search>)

  /** Stub mode: `with_ib` is false, or every variable is `None`, or a domain object is missing. */
  predicate IsStub(options: map<string, Value>, vars: seq<Option<string>>, domain: seq<bool>) {
    ("with_ib" in options ==> !Truthy(options["with_ib"])) ||
    (forall k :: 0 <= k < |vars| ==> vars[k].None?) ||
    (exists k :: 0 <= k < |domain| && !domain[k])
  }

  /**
   * The routines the constructor installs: all stubs (and no search
   * function) in stub mode; otherwise the rigid force and map routines with
   * the stub advection for `ib_type == 'rigid'`, the three viscoelastic
   * routines for `'visco'`, none for any other type, and the search function
   * named by `mapping_type`, whose absence is a KeyError.
   */
  function Dispatch(options: map<string, Value>, vars: seq<Option<string>>, domain: seq<bool>): (r: (Outcome, Slots))
    requires "ib_type" in options && "mapping_type" in options
    ensures IsStub(options, vars, domain) ==> r == (Done, Slots(Some(Stub), Some(Stub), Some(Stub), None))
    ensures !IsStub(options, vars, domain) ==> (r.0 == KeyError <==> SearchOf(options["mapping_type"]).None?)
    ensures !IsStub(options, vars, domain) && r.0 == Done ==>
      r.1.search.Some? && r.1.search == SearchOf(options["mapping_type"]) &&
      (options["ib_type"] == Str("rigid") ==> r.1.force == Some(Rigid) && r.1.mapping == Some(Rigid) && r.1.advect == Some(Stub)) &&
      (options["ib_type"] == Str("visco") ==> r.1.force == Some(Visco) && r.1.mapping == Some(Visco) && r.1.advect == Some(Visco)) &&
      (options["ib_type"] !in {Str("rigid"), Str("visco")} ==> r.1.force.None? && r.1.mapping.None? && r.1.advect.None?)
  {
    if IsStub(options, vars, domain) then (Done, Slots(Some(Stub), Some(Stub), Some(Stub), None))
    else
      var routines :=
        if options["ib_type"] == Str("rigid") then Slots(Some(Rigid), Some(Rigid), Some(Stub), None)
        else if options["ib_type"] == Str("visco") then Slots(Some(Visco), Some(Visco), Some(Visco), None)
        else Slots(None, None, None, None);
      var search := SearchOf(options["mapping_type"]);
      if search.None? then (KeyError, routines) else (Done, routines.(search := search))
  }

  /** A Python list the caller owns; the constructor extends it in place. */
  class VarList {
    var items: seq<Option<string>>

    constructor (items: seq<Option<string>>)
      ensures this.items == items
    {
      this.items := items;
    }
  }

  datatype Construction = Built(unit: ImBound) | Raised(error: Outcome)

  /** What a mapping routine hands back: the rigid routine returns the search count of the last particle. */
  function Mapped(routine: Routine, counts: seq<int>, viscoResult: Option<int>): (r: (Outcome, Option<int>))
    ensures routine == Stub ==> r == (Done, None)
    ensures routine == Rigid ==> (r.0 == UnboundLocalError <==> counts == []) && (counts != [] ==> r.1 == Some(counts[|counts| - 1]))
  {
    match routine
    case Stub => (Done, None)
    case Rigid => if counts == [] then (UnboundLocalError, None) else (Done, Some(counts[|counts| - 1]))
    case Visco => (Done, viscoResult)
  }

  class ImBound {
    var vars: seq<Option<string>>
    var options: map<string, Value>
    var slots: Slots
    var mappingTime: real
    var mappingItes: Option<int>
    var advectionTime: real

    constructor (vars: seq<Option<string>>, options: map<string, Value>, slots: Slots)
      ensures this.vars == vars && this.options == options && this.slots == slots
      ensures mappingTime == 0.0 && mappingItes == Some(0) && advectionTime == 0.0
    {
      this.vars := vars;
      this.options := options;
      this.slots := slots;
      mappingTime := 0.0;
      mappingItes := Some(0);
      advectionTime := 0.0;
    }

    /**
     * The constructor.  `domain` says which of gridc, gridx, gridy, scalars
     * and particles are present.  The unpacking of five domain objects and of
     * four variables raises ValueError otherwise; the caller's list is
     * padded before its unpacking, whatever follows.
     */
    static method Create(domain: seq<bool>, vars: VarList, user: map<string, Value>) returns (r: Construction)
      modifies vars
      ensures |domain| != 5 ==> r == Raised(ValueError) && vars.items == old(vars.items)
      ensures |domain| == 5 ==> vars.items == Padded(old(vars.items))
      ensures |domain| == 5 && |old(vars.items)| > 4 ==> r == Raised(ValueError)
      ensures |domain| == 5 && |old(vars.items)| <= 4 ==>
        var d := Dispatch(Options(user), vars.items, domain);
        (d.0 != Done ==> r == Raised(d.0)) &&
        (d.0 == Done ==> r.Built? && fresh(r.unit) && r.unit.vars == vars.items && r.unit.options == Options(user) &&
                         r.unit.slots == d.1 && r.unit.mappingItes == Some(0) &&
                         r.unit.mappingTime == 0.0 && r.unit.advectionTime == 0.0)
    {
      if |domain| != 5 {
        return Raised(ValueError);
      }
      vars.items := Padded(vars.items);
      if |vars.items| != 4 {
        return Raised(ValueError);
      }
      var options := Options(user);
      var d := Dispatch(options, vars.items, domain);
      if d.0 != Done {
        return Raised(d.0);
      }
      var unit := new ImBound(vars.items, options, d.1);
      return Built(unit);
    }

    /**
     * `map_to_grid`: the installed mapping routine is looked up first and the
     * search function second, so a missing routine or (in stub mode) the
     * never-set search function raises AttributeError; otherwise its result
     * becomes the mapping count and `t2 - t1` the mapping time.
     */
    method MapToGrid(counts: seq<int>, viscoResult: Option<int>, t1: real, t2: real) returns (out: Outcome)
      modifies this
      ensures slots == old(slots) && vars == old(vars) && options == old(options) && advectionTime == old(advectionTime)
      ensures old(slots).mapping.None? || old(slots).search.None? ==>
        out == AttributeError && mappingItes == old(mappingItes) && mappingTime == old(mappingTime)
      ensures old(slots).mapping.Some? && old(slots).search.Some? ==>
        var m := Mapped(old(slots).mapping.value, counts, viscoResult);
        out == m.0 && (m.0 == Done ==> mappingItes == m.1 && mappingTime == t2 - t1) &&
        (m.0 != Done ==> mappingItes == old(mappingItes) && mappingTime == old(mappingTime))
    {
      if slots.mapping.None? || slots.search.None? {
        return AttributeError;
      }
      var m := Mapped(slots.mapping.value, counts, viscoResult);
      out := m.0;
      if out == Done {
        mappingItes := m.1;
        mappingTime := t2 - t1;
      }
    }

    /** `force_flow`: the installed forcing routine runs; with none installed, AttributeError. */
    method ForceFlow() returns (out: Outcome, ran: Option<Routine>)
      ensures slots.force.None? ==> out == AttributeError && ran.None?
      ensures slots.force.Some? ==> out == Done && ran == slots.force
    {
      if slots.force.None? {
        return AttributeError, None;
      }
      return Done, slots.force;
    }

    /** `advect`: the installed advection routine runs and `t2 - t1` becomes the advection time. */
    method Advect(t1: real, t2: real) returns (out: Outcome, ran: Option<Routine>)
      modifies this
      ensures slots == old(slots) && vars == old(vars) && options == old(options)
      ensures mappingItes == old(mappingItes) && mappingTime == old(mappingTime)
      ensures slots.advect.None? ==> out == AttributeError && ran.None? && advectionTime == old(advectionTime)
      ensures slots.advect.Some? ==> out == Done && ran == slots.advect && advectionTime == t2 - t1
    {
      if slots.advect.None? {
        return AttributeError, None;
      }
      advectionTime := t2 - t1;
      return Done, slots.advect;
    }
  }

  /** In stub mode the mapping call never reaches the stub routine: it raises AttributeError. */
  lemma StubNeverMaps(options: map<string, Value>, vars: seq<Option<string>>, domain: seq<bool>)
    requires "ib_type" in options && "mapping_type" in options && IsStub(options, vars, domain)
    ensures Dispatch(options, vars, domain).1.search.None?
  {
  }

  /** With the default options the unit is a stub: `with_ib` is false unless the user sets it. */
  lemma DefaultIsStub(user: map<string, Value>, vars: seq<Option<string>>, domain: seq<bool>)
    requires "with_ib" !in user || !Truthy(user["with_ib"])
    ensures IsStub(Options(user), vars, domain)
  {
  }

  /**
   * Outside stub mode the default options give the rigid routines and the
   * `ann` search; an unknown `mapping_type` is a KeyError whatever `ib_type` is.
   */
  lemma ActiveDispatch(user: map<string, Value>, vars: seq<Option<string>>, domain: seq<bool>)
    requires !IsStub(Options(user), vars, domain)
    ensures "ib_type" !in user && "mapping_type" !in user ==>
      Dispatch(Options(user), vars, domain) == (Done, Slots(Some(Rigid), Some(Rigid), Some(Stub), Some(Ann)))
    ensures "mapping_type" in user && SearchOf(user["mapping_type"]).None? ==> Dispatch(Options(user), vars, domain).0 == KeyError
  {
  }
}
