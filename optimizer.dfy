/**
 * The bookkeeping of nmtpytorch/optimizer.py: which parameters are trained,
 * how they are split into parameter groups for weight decay, the argument
 * dictionary handed to the torch optimizer, the choice of `step`, the
 * learning-rate bookkeeping of `lr_step` and the text of `__repr__`.
 * The torch optimizer and its scheduler are outside the model: the values
 * they supply (`defaults['lr']`, the lr after a scheduler step) are inputs.
 */
module Optim {
  import opened Wrappers

  // ---------------------------------------------------------------- names

  /** `sub` sits in `s` starting at position `i`. */
  predicate OccursAt(s: string, sub: string, i: nat) {
    i + |sub| <= |s| && s[i..i + |sub|] == sub
  }

  /** Python's `sub in s` on strings: `sub` occurs at some position of `s`. */
  function Contains(s: string, sub: string): (r: bool)
    ensures r <==> exists i: nat :: OccursAt(s, sub, i)
    decreases |s|
  {
    if |sub| > |s| then false
    else if s[..|sub|] == sub then assert OccursAt(s, sub, 0); true
    else
      var r := Contains(s[1..], sub);
      assert r ==> exists i: nat :: OccursAt(s, sub, i) by {
        if r {
          var i: nat :| OccursAt(s[1..], sub, i);
          assert s[i + 1..i + 1 + |sub|] == s[1..][i..i + |sub|];
          assert OccursAt(s, sub, i + 1);
        }
      }
      assert (exists i: nat :: OccursAt(s, sub, i)) ==> r by {
        if exists i: nat :: OccursAt(s, sub, i) {
          var i: nat :| OccursAt(s, sub, i);
          assert i != 0;
          assert s[1..][i - 1..i - 1 + |sub|] == s[i..i + |sub|];
          assert OccursAt(s[1..], sub, i - 1);
        }
      }
      r
  }

  /** Parameters whose name mentions `discriminator` are never handed to this optimizer. */
  predicate IsKeptName(n: string) {
    !Contains(n, "discriminator")
  }

  /** The weight group: neither `bias` nor `discriminator` in the name. */
  predicate IsWeightName(n: string) {
    !Contains(n, "bias") && !Contains(n, "discriminator")
  }

  /** The bias group: `bias` but not `discriminator` in the name. */
  predicate IsBiasName(n: string) {
    Contains(n, "bias") && !Contains(n, "discriminator")
  }

  // ---------------------------------------------------------------- parameters

  /** A model parameter, known by its identity and whether it receives gradients. */
  datatype Param = Param(id: nat, requiresGrad: bool)

  /** An entry of `model.named_parameters()`. */
  type Named = (string, Param)

  /** `get_params`: the named parameters with `requires_grad`, in model order. */
  function GetParams(model: seq<Named>): (r: seq<Named>)
    ensures |r| <= |model|
    ensures forall x :: x in r <==> x in model && x.1.requiresGrad
    decreases |model|
  {
    if |model| == 0 then []
    else
      var init := model[..|model| - 1];
      assert forall x :: x in model <==> x in init || x == model[|model| - 1];
      GetParams(init) + (if model[|model| - 1].1.requiresGrad then [model[|model| - 1]] else [])
  }

  /** Filtering is done element by element, so it keeps the relative order of the model's parameters. */
  lemma {:induction false} GetParamsAppend(a: seq<Named>, b: seq<Named>)
    ensures GetParams(a + b) == GetParams(a) + GetParams(b)
    decreases |b|
  {
    if |b| == 0 {
      assert a + b == a;
    } else {
      assert (a + b)[..|a + b| - 1] == a + b[..|b| - 1];
      GetParamsAppend(a, b[..|b| - 1]);
    }
  }

  /** `[p for n, p in named if keep(n)]`: the parameters whose name passes `keep`, in order. */
  function Select(named: seq<Named>, keep: string -> bool): (r: seq<Param>)
    ensures |r| <= |named|
    ensures forall p :: p in r <==> exists i :: 0 <= i < |named| && named[i].1 == p && keep(named[i].0)
    decreases |named|
  {
    if |named| == 0 then []
    else
      var init := named[..|named| - 1];
      var last := named[|named| - 1];
      var r := Select(init, keep) + (if keep(last.0) then [last.1] else []);
      assert forall p :: (exists i :: 0 <= i < |named| && named[i].1 == p && keep(named[i].0)) ==> p in r by {
        forall p | exists i :: 0 <= i < |named| && named[i].1 == p && keep(named[i].0) ensures p in r {
          var i :| 0 <= i < |named| && named[i].1 == p && keep(named[i].0);
          if i < |init| { assert init[i] == named[i]; }
        }
      }
      r
  }

  /** `[param for (name, param) in named_params]`. */
  function ParamsOf(named: seq<Named>): (r: seq<Param>)
    ensures |r| == |named| && forall i :: 0 <= i < |named| ==> r[i] == named[i].1
  {
    seq(|named|, i requires 0 <= i < |named| => named[i].1)
  }

  /** Every parameter is selected by a test or by its negation, never by both. */
  lemma {:induction false} SelectSplit(named: seq<Named>, keep: string -> bool, drop: string -> bool)
    requires forall n :: drop(n) == !keep(n)
    ensures |Select(named, keep)| + |Select(named, drop)| == |named|
    decreases |named|
  {
    if |named| > 0 {
      SelectSplit(named[..|named| - 1], keep, drop);
    }
  }

  /** The weight and the bias group together hold exactly as many parameters as the kept ones. */
  lemma {:induction false} WeightBiasSplit(named: seq<Named>)
    ensures |Select(named, IsWeightName)| + |Select(named, IsBiasName)| == |Select(named, IsKeptName)|
    decreases |named|
  {
    if |named| > 0 {
      WeightBiasSplit(named[..|named| - 1]);
    }
  }

  /** Nothing is selected when no name passes the test. */
  lemma {:induction false} SelectNone(named: seq<Named>, keep: string -> bool)
    ensures |Select(named, keep)| == 0 <==> forall i :: 0 <= i < |named| ==> !keep(named[i].0)
  {
    if |Select(named, keep)| == 0 {
      forall i | 0 <= i < |named| ensures !keep(named[i].0) {
        assert named[i].1 !in Select(named, keep);
      }
    } else {
      assert Select(named, keep)[0] in Select(named, keep);
    }
  }

  // ---------------------------------------------------------------- parameter groups

  /** A parameter group: its parameters and, for the weight group, its own `weight_decay`. */
  datatype Group = Group(params: seq<Param>, weightDecay: Option<real>)

  /**
   * `param_groups`: with a positive weight decay, a weight group carrying it and
   * a bias group without it; otherwise one group of every kept parameter.
   */
  function ParamGroups(named: seq<Named>, weightDecay: real): (gs: seq<Group>)
    ensures |gs| == if weightDecay > 0.0 then 2 else 1
  {
    if weightDecay > 0.0 then
      [Group(Select(named, IsWeightName), Some(weightDecay)), Group(Select(named, IsBiasName), None)]
    else
      [Group(Select(named, IsKeptName), None)]
  }

  /** Number of parameters over all groups. */
  function GroupTotal(gs: seq<Group>): (n: nat)
    decreases |gs|
  {
    if |gs| == 0 then 0 else GroupTotal(gs[..|gs| - 1]) + |gs[|gs| - 1].params|
  }

  /**
   * What the groups hold: a parameter is in some group exactly when it is
   * trainable under a name without `discriminator`, and only the weight group
   * carries the weight decay.
   */
  lemma GroupsCover(named: seq<Named>, weightDecay: real, p: Param)
    ensures (exists g :: 0 <= g < |ParamGroups(named, weightDecay)| && p in ParamGroups(named, weightDecay)[g].params) <==>
            exists i :: 0 <= i < |named| && named[i].1 == p && IsKeptName(named[i].0)
    ensures forall g :: 0 <= g < |ParamGroups(named, weightDecay)| ==>
              (ParamGroups(named, weightDecay)[g].weightDecay.Some? <==> weightDecay > 0.0 && g == 0)
  {
    var gs := ParamGroups(named, weightDecay);
    if weightDecay > 0.0 {
      if exists i :: 0 <= i < |named| && named[i].1 == p && IsKeptName(named[i].0) {
        var i :| 0 <= i < |named| && named[i].1 == p && IsKeptName(named[i].0);
        if Contains(named[i].0, "bias") {
          assert p in gs[1].params;
        } else {
          assert p in gs[0].params;
        }
      }
    } else {
      assert p in gs[0].params <==> exists i :: 0 <= i < |named| && named[i].1 == p && IsKeptName(named[i].0);
    }
  }

  /** When every parameter object appears once, the weight and bias groups share none. */
  lemma GroupsDisjoint(named: seq<Named>, weightDecay: real)
    requires forall i, j :: 0 <= i < j < |named| ==> named[i].1 != named[j].1
    requires weightDecay > 0.0
    ensures forall p :: p in ParamGroups(named, weightDecay)[0].params ==> p !in ParamGroups(named, weightDecay)[1].params
  {
    var gs := ParamGroups(named, weightDecay);
    forall p | p in gs[0].params ensures p !in gs[1].params {
      var i :| 0 <= i < |named| && named[i].1 == p && IsWeightName(named[i].0);
    }
  }

  /** The safety loop: `n_params -= len(group['params'])` for every group. */
  method Unassigned(params: seq<Param>, gs: seq<Group>) returns (n: int)
    ensures n == |params| - GroupTotal(gs)
  {
    n := |params|;
    for g := 0 to |gs|
      invariant n == |params| - GroupTotal(gs[..g])
    {
      assert gs[..g + 1][..g] == gs[..g];
      n := n - |gs[g].params|;
    }
    assert gs[..|gs|] == gs;
  }

  /**
   * The safety check warns exactly when some trainable parameter is named
   * `discriminator`: those are the only ones left out of every group.
   */
  lemma WarningIff(named: seq<Named>, weightDecay: real)
    ensures |ParamsOf(named)| - GroupTotal(ParamGroups(named, weightDecay)) != 0 <==>
            exists i :: 0 <= i < |named| && Contains(named[i].0, "discriminator")
  {
    var gs := ParamGroups(named, weightDecay);
    var kept := |Select(named, IsKeptName)|;
    assert gs[..|gs| - 1][..0] == [];
    if weightDecay > 0.0 {
      assert gs[..1][..0] == [] && gs[..|gs| - 1] == gs[..1];
      assert GroupTotal(gs[..1]) == |gs[0].params|;
      WeightBiasSplit(named);
    } else {
      assert gs[..0] == [];
    }
    assert GroupTotal(gs) == kept;
    var disc := (n: string) => Contains(n, "discriminator");
    SelectSplit(named, IsKeptName, disc);
    SelectNone(named, disc);
  }

  // ---------------------------------------------------------------- optimizer arguments

  /** The names `methods` maps to torch optimizer classes. */
  const Methods: set<string> := {"adadelta", "adagrad", "adam", "sgd", "asgd", "rprop", "rmsprop"}

  /** A value of `optim_args`. */
  datatype Value = Real(r: real) | Bool(b: bool)

  /**
   * `optim_args`: `lr` only when an explicit positive lr was given, and
   * `momentum` and `nesterov` only for SGD.
   */
  function OptimArgs(name: string, lr: real, momentum: real, nesterov: bool): (args: map<string, Value>)
    ensures "lr" in args <==> lr > 0.0
    ensures "momentum" in args <==> name == "sgd"
    ensures "nesterov" in args <==> name == "sgd"
    ensures args.Keys <= {"lr", "momentum", "nesterov"}
    ensures "lr" in args ==> args["lr"] == Real(lr)
    ensures "momentum" in args ==> args["momentum"] == Real(momentum)
    ensures "nesterov" in args ==> args["nesterov"] == Bool(nesterov)
  {
    var withLr: map<string, Value> := if lr > 0.0 then map["lr" := Real(lr)] else map[];
    if name == "sgd" then withLr["momentum" := Real(momentum)]["nesterov" := Bool(nesterov)] else withLr
  }

  /** The key-by-key construction of `optim_args` in `__init__`. */
  method BuildArgs(name: string, lr: real, momentum: real, nesterov: bool) returns (args: map<string, Value>)
    ensures args == OptimArgs(name, lr, momentum, nesterov)
  {
    args := map[];
    if lr > 0.0 {
      args := args["lr" := Real(lr)];
    }
    if name == "sgd" {
      args := args["momentum" := Real(momentum)];
      args := args["nesterov" := Bool(nesterov)];
    }
  }

  /** What `self.step` is bound to: the torch step, or `_step`, which clips gradients to `gclip` first. */
  datatype StepKind = Plain | Clipped(maxNorm: real)

  // ---------------------------------------------------------------- the optimizer

  class Optimizer {
    var name: string
    var model: seq<Named>
    var lrDecay: bool
    var lrDecayFactor: real
    var lrDecayMode: string
    var lrDecayPatience: int
    var lrDecayMin: real
    var momentum: real
    var nesterov: bool
    var weightDecay: real
    var gclip: real

    var optimArgs: map<string, Value>
    var namedParams: seq<Named>
    var params: seq<Param>
    var paramGroups: seq<Group>
    /** Whether the "Not all params are passed" warning was printed. */
    var warned: bool
    var initialLr: real
    var curLr: real
    /** `optim.param_groups[0]['lr']`, which only the scheduler changes. */
    var lr: real
    var step: StepKind
    var hasScheduler: bool

    /** Without a scheduler the learning rate never moves from the initial one. */
    ghost predicate Valid()
      reads this
    {
      hasScheduler == lrDecay && (!hasScheduler ==> curLr == initialLr && lr == initialLr)
    }

    /**
     * `__init__`. `classDefaultLr` stands for `defaults['lr']` of the torch
     * class when no explicit lr is passed; an unknown `name` raises in the
     * source, hence the requirement.
     */
    constructor (name: string, model: seq<Named>, lr: real, momentum: real, nesterov: bool, weightDecay: real, gclip: real,
                 lrDecay: bool, lrDecayFactor: real, lrDecayMode: string, lrDecayPatience: int, lrDecayMin: real,
                 classDefaultLr: real)
      requires name in Methods
      ensures Valid()
      ensures this.name == name && this.model == model && this.lrDecay == lrDecay && this.lrDecayFactor == lrDecayFactor
      ensures this.lrDecayMode == lrDecayMode && this.lrDecayPatience == lrDecayPatience && this.lrDecayMin == lrDecayMin
      ensures this.momentum == momentum && this.nesterov == nesterov && this.weightDecay == weightDecay && this.gclip == gclip
      ensures optimArgs == OptimArgs(name, lr, momentum, nesterov)
      ensures namedParams == GetParams(model) && params == ParamsOf(namedParams)
      ensures paramGroups == ParamGroups(namedParams, weightDecay)
      ensures warned <==> exists i :: 0 <= i < |namedParams| && Contains(namedParams[i].0, "discriminator")
      ensures initialLr == (if lr > 0.0 then lr else classDefaultLr) && curLr == initialLr
      ensures step == if gclip == 0.0 then Plain else Clipped(gclip)
      ensures hasScheduler == lrDecay
    {
      var args := BuildArgs(name, lr, momentum, nesterov);
      var named := GetParams(model);
      var ps := ParamsOf(named);
      var groups;
      if weightDecay > 0.0 {
        groups := [Group(Select(named, IsWeightName), Some(weightDecay)), Group(Select(named, IsBiasName), None)];
      } else {
        groups := [Group(Select(named, IsKeptName), None)];
      }
      var n := Unassigned(ps, groups);
      WarningIff(named, weightDecay);
      var initial := if "lr" in args then args["lr"].r else classDefaultLr;
      this.name, this.model := name, model;
      this.lrDecay, this.lrDecayFactor, this.lrDecayMode := lrDecay, lrDecayFactor, lrDecayMode;
      this.lrDecayPatience, this.lrDecayMin := lrDecayPatience, lrDecayMin;
      this.momentum, this.nesterov, this.weightDecay, this.gclip := momentum, nesterov, weightDecay, gclip;
      optimArgs, namedParams, params, paramGroups, warned := args, named, ps, groups, n != 0;
      initialLr, curLr, this.lr := initial, initial, initial;
      step := if gclip == 0.0 then Plain else Clipped(gclip);
      hasScheduler := lrDecay;
    }

    /**
     * `lr_step(metric)`. The scheduler's decision is outside the model:
     * `scheduledLr` is the group-0 lr after its step. Without a scheduler the
     * answer is `False`; with one it is `True` when the lr moved and `None`
     * (nothing returned) when it did not.
     */
    method LrStep(scheduledLr: real) returns (changed: Option<bool>)
      requires Valid()
      modifies this`curLr, this`lr
      ensures Valid()
      ensures !hasScheduler ==> changed == Some(false) && curLr == old(curLr) && lr == old(lr)
      ensures hasScheduler ==> lr == scheduledLr
      ensures hasScheduler && scheduledLr != old(curLr) ==> changed == Some(true) && curLr == scheduledLr
      ensures hasScheduler && scheduledLr == old(curLr) ==> changed == None && curLr == old(curLr)
    {
      if hasScheduler {
        lr := scheduledLr;
        if lr != curLr {
          curLr := lr;
          return Some(true);
        }
        changed := None;
      } else {
        changed := Some(false);
      }
    }

    /**
     * The `name: value` fields `__repr__` prints, in order. Number formatting
     * is Python's and is outside the model: `num` formats the float fields
     * and `whole` the patience.
     */
    function ReprFields(num: real -> string, whole: int -> string): (fs: seq<Field>)
      reads this
      ensures |fs| == 3 + (if name == "sgd" then 2 else 0) + (if lrDecay then 1 else 0)
      ensures fs[0] == Field("lr", num(initialLr)) && fs[1] == Field("weight_decay", num(weightDecay))
      ensures fs[2] == Field("g_clip", num(gclip))
      ensures name == "sgd" ==> fs[3] == Field("momentum", num(momentum)) && fs[4] == Field("nesterov", PyBool(nesterov))
      ensures lrDecay ==> fs[|fs| - 1] == Field("lr_decay", "(patience=" + whole(lrDecayPatience) + ", factor=" + num(lrDecayFactor) + ")")
    {
      [Field("lr", num(initialLr)), Field("weight_decay", num(weightDecay)), Field("g_clip", num(gclip))]
      + (if name == "sgd" then [Field("momentum", num(momentum)), Field("nesterov", PyBool(nesterov))] else [])
      + (if lrDecay then [Field("lr_decay", "(patience=" + whole(lrDecayPatience) + ", factor=" + num(lrDecayFactor) + ")")] else [])
    }

    /** `__repr__`: the name, then the rendered fields in parentheses. */
    function Repr(num: real -> string, whole: int -> string): (s: string)
      reads this
      ensures |s| >= 16 + |name| && s[..13] == "Optimizer => " && s[13..13 + |name|] == name
      ensures s[13 + |name|..15 + |name|] == " (" && s[|s| - 1] == ')'
      ensures s[15 + |name|..|s| - 1] == Render(ReprFields(num, whole))
    {
      "Optimizer => " + name + " (" + Render(ReprFields(num, whole)) + ")"
    }
  }

  /** `'{}'.format(b)` for a boolean. */
  function PyBool(b: bool): string {
    if b then "True" else "False"
  }

  // ---------------------------------------------------------------- the text of __repr__

  /** One `key: value` entry of `__repr__`. */
  datatype Field = Field(key: string, value: string)

  /** The text `key: value` of one field. */
  function Entry(f: Field): string {
    f.key + ": " + f.value
  }

  /**
   * The fields written as `key: value`, separated by `, `: empty exactly
   * when there are no fields, a single field is its entry, led by the first
   * key and closed by the last value, and as long as `Width` counts.
   * `RenderAppend` states how the text of a longer list is joined.
   */
  function Render(fs: seq<Field>): (s: string)
    ensures s == "" <==> |fs| == 0
    ensures |fs| == 1 ==> s == fs[0].key + ": " + fs[0].value
    ensures |fs| > 0 ==> fs[0].key + ": " <= s
    ensures |fs| > 0 ==> |fs[|fs| - 1].value| <= |s| && s[|s| - |fs[|fs| - 1].value|..] == fs[|fs| - 1].value
    ensures |s| == Width(fs)
    decreases |fs|
  {
    if |fs| == 0 then ""
    else if |fs| == 1 then Entry(fs[0])
    else
      var init, f := fs[..|fs| - 1], fs[|fs| - 1];
      assert fs == init + [f] && init[0] == fs[0];
      WidthSnoc(init, f);
      Render(init) + ", " + Entry(f)
  }

  /** The length of the rendered fields, counted from the front: every entry and the `, ` after all but the last. */
  function Width(fs: seq<Field>): nat {
    if |fs| == 0 then 0
    else |fs[0].key| + 2 + |fs[0].value| + (if |fs| == 1 then 0 else 2 + Width(fs[1..]))
  }

  /** One more field adds its entry and a separator to the width. */
  lemma {:induction false} WidthSnoc(fs: seq<Field>, f: Field)
    requires |fs| > 0
    ensures Width(fs + [f]) == Width(fs) + 2 + |f.key| + 2 + |f.value|
    decreases |fs|
  {
    assert (fs + [f])[0] == fs[0] && (fs + [f])[1..] == fs[1..] + [f];
    if |fs| > 1 {
      WidthSnoc(fs[1..], f);
    }
  }

  /** One more field after a non-empty list adds `, ` and its entry. */
  lemma RenderSnoc(fs: seq<Field>, f: Field)
    requires |fs| > 0
    ensures Render(fs + [f]) == Render(fs) + ", " + Entry(f)
  {
  }

  /** Rendering two non-empty field lists one after the other joins their texts with `, `. */
  lemma {:induction false} RenderAppend(a: seq<Field>, b: seq<Field>)
    requires |a| > 0 && |b| > 0
    ensures Render(a + b) == Render(a) + ", " + Render(b)
    decreases |b|
  {
    var init, f := b[..|b| - 1], b[|b| - 1];
    assert b == init + [f] && a + b == (a + init) + [f];
    RenderSnoc(a + init, f);
    if |b| > 1 {
      RenderAppend(a, init);
      RenderSnoc(init, f);
      Regroup(Render(a), Render(init), Entry(f));
    } else {
      assert a + init == a;
    }
  }

  /** Joining three texts with `, ` does not depend on which join comes first. */
  lemma Regroup(x: string, y: string, z: string)
    ensures x + ", " + y + ", " + z == x + ", " + (y + ", " + z) == x + (", " + y + ", " + z)
    ensures x + ", " + z == x + (", " + z)
  {
  }

  function Labels(fs: seq<Field>): (ls: seq<string>)
    ensures |ls| == |fs| && forall i :: 0 <= i < |fs| ==> ls[i] == fs[i].key
  {
    seq(|fs|, i requires 0 <= i < |fs| => fs[i].key)
  }

  /**
   * `__repr__` always shows lr, weight decay and the clipping norm first;
   * momentum and Nesterov appear exactly for SGD, and the lr-decay clause
   * exactly when lr decay is on.
   */
  lemma ReprClauses(o: Optimizer, num: real -> string, whole: int -> string)
    ensures Labels(o.ReprFields(num, whole))[..3] == ["lr", "weight_decay", "g_clip"]
    ensures "momentum" in Labels(o.ReprFields(num, whole)) <==> o.name == "sgd"
    ensures "nesterov" in Labels(o.ReprFields(num, whole)) <==> o.name == "sgd"
    ensures "lr_decay" in Labels(o.ReprFields(num, whole)) <==> o.lrDecay
    ensures |o.ReprFields(num, whole)| == 3 + (if o.name == "sgd" then 2 else 0) + (if o.lrDecay then 1 else 0)
  {
    var ls := Labels(o.ReprFields(num, whole));
    var sgd := if o.name == "sgd" then ["momentum", "nesterov"] else [];
    var decay := if o.lrDecay then ["lr_decay"] else [];
    assert ls == ["lr", "weight_decay", "g_clip"] + sgd + decay;
  }

  /**
   * The whole text of `__repr__`, built as the source builds it: the
   * mandatory clause, `, momentum: …, nesterov: …` for SGD, `, lr_decay:
   * (patience=…, factor=…)` with lr decay, and the closing parenthesis.
   */
  lemma ReprText(o: Optimizer, num: real -> string, whole: int -> string)
    ensures o.Repr(num, whole) ==
      "Optimizer => " + o.name + " (lr: " + num(o.initialLr) + ", weight_decay: " + num(o.weightDecay)
      + ", g_clip: " + num(o.gclip)
      + (if o.name == "sgd" then ", momentum: " + num(o.momentum) + ", nesterov: " + PyBool(o.nesterov) else "")
      + (if o.lrDecay then ", lr_decay: (patience=" + whole(o.lrDecayPatience) + ", factor=" + num(o.lrDecayFactor) + ")" else "")
      + ")"
  {
    var lr, wd, gc := num(o.initialLr), num(o.weightDecay), num(o.gclip);
    var mom, nes := num(o.momentum), PyBool(o.nesterov);
    var patience, factor := whole(o.lrDecayPatience), num(o.lrDecayFactor);
    var decay := "(patience=" + patience + ", factor=" + factor + ")";
    var sgdOn, decayOn := o.name == "sgd", o.lrDecay;
    var fields := o.ReprFields(num, whole);
    assert fields == [Field("lr", lr), Field("weight_decay", wd), Field("g_clip", gc)]
                     + (if sgdOn then [Field("momentum", mom), Field("nesterov", PyBool(o.nesterov))] else [])
                     + (if decayOn then [Field("lr_decay", decay)] else []);
    RenderList(Field("lr", lr), Field("weight_decay", wd), Field("g_clip", gc), Field("momentum", mom), Field("nesterov", nes),
               Field("lr_decay", decay), sgdOn, decayOn);
    ReprLiterals();
    var head := "Optimizer => " + o.name;
    Tagged3(head, " (", "lr", lr, ", ", "weight_decay", wd, "g_clip", gc, " (lr: ", ", weight_decay: ", ", g_clip: ");
    var sgdText := if sgdOn then ", " + Entry(Field("momentum", mom)) + ", " + Entry(Field("nesterov", nes)) else "";
    if sgdOn {
      Tagged2(", ", "momentum", mom, "nesterov", nes, ", momentum: ", ", nesterov: ");
    }
    var decayText := if decayOn then ", " + Entry(Field("lr_decay", decay)) else "";
    if decayOn {
      TaggedDecay(", ", "lr_decay", "(patience=", patience, ", factor=", factor, ")", ", lr_decay: (patience=");
    }
    Enclose(head + " (", Entry(Field("lr", lr)) + ", " + Entry(Field("weight_decay", wd)) + ", " + Entry(Field("g_clip", gc)),
            sgdText, decayText);
  }

  /** The rendered fields of `__repr__`: the mandatory entries, then the SGD entries and the lr-decay entry when present. */
  lemma RenderList(lr: Field, wd: Field, gc: Field, mom: Field, nes: Field, dec: Field, sgdOn: bool, decayOn: bool)
    ensures Render([lr, wd, gc] + (if sgdOn then [mom, nes] else []) + (if decayOn then [dec] else [])) ==
      Entry(lr) + ", " + Entry(wd) + ", " + Entry(gc)
      + (if sgdOn then ", " + Entry(mom) + ", " + Entry(nes) else "")
      + (if decayOn then ", " + Entry(dec) else "")
  {
    var base := [lr, wd, gc];
    var sgd := if sgdOn then [mom, nes] else [];
    var decay := if decayOn then [dec] else [];
    var core := Entry(lr) + ", " + Entry(wd) + ", " + Entry(gc);
    var sgdText := if sgdOn then ", " + Entry(mom) + ", " + Entry(nes) else "";
    var decayText := if decayOn then ", " + Entry(dec) else "";
    RenderBase(lr, wd, gc);
    if sgdOn {
      assert [mom] + [nes] == sgd;
      RenderSnoc([mom], nes);
      RenderAppend(base, sgd);
      Regroup(core, Entry(mom), Entry(nes));
      assert Render(base + sgd) == core + sgdText;
    } else {
      assert base + sgd == base && core + sgdText == core;
    }
    if decayOn {
      RenderSnoc(base + sgd, dec);
      Regroup(core + sgdText, "", Entry(dec));
      assert Render(base + sgd + decay) == core + sgdText + decayText;
    } else {
      assert base + sgd + decay == base + sgd && core + sgdText + decayText == core + sgdText;
    }
  }

  /** The three mandatory fields render as `lr: …, weight_decay: …, g_clip: …`. */
  lemma RenderBase(lr: Field, wd: Field, gc: Field)
    ensures Render([lr, wd, gc]) == Entry(lr) + ", " + Entry(wd) + ", " + Entry(gc)
  {
  }

  /** The format strings of `__repr__` are its separators and keys run together. */
  lemma ReprLiterals()
    ensures " (" + "lr" + ": " == " (lr: "
    ensures ", " + "weight_decay" + ": " == ", weight_decay: " && ", " + "g_clip" + ": " == ", g_clip: "
    ensures ", " + "momentum" + ": " == ", momentum: " && ", " + "nesterov" + ": " == ", nesterov: "
    ensures ", " + "lr_decay" + ": " + "(patience=" == ", lr_decay: (patience="
  {
  }

  /** Three entries after a head, written with the format strings that run each separator and key together. */
  lemma Tagged3(h: string, open: string, k1: string, v1: string, sep: string, k2: string, v2: string, k3: string, v3: string,
                l1: string, l2: string, l3: string)
    requires l1 == open + k1 + ": " && l2 == sep + k2 + ": " && l3 == sep + k3 + ": "
    ensures h + open + (Entry(Field(k1, v1)) + sep + Entry(Field(k2, v2)) + sep + Entry(Field(k3, v3))) == h + l1 + v1 + l2 + v2 + l3 + v3
  {
  }

  /** Two separated entries, written with the format strings that run each separator and key together. */
  lemma Tagged2(sep: string, k1: string, v1: string, k2: string, v2: string, l1: string, l2: string)
    requires l1 == sep + k1 + ": " && l2 == sep + k2 + ": "
    ensures sep + Entry(Field(k1, v1)) + sep + Entry(Field(k2, v2)) == l1 + v1 + l2 + v2
  {
  }

  /** The separated lr-decay entry, written with the format string that runs separator, key and `(patience=` together. */
  lemma TaggedDecay(sep: string, k: string, open: string, p: string, mid: string, f: string, close: string, l: string)
    requires l == sep + k + ": " + open
    ensures sep + Entry(Field(k, open + p + mid + f + close)) == l + p + mid + f + close
  {
  }

  /** Parenthesising the rendered clauses after the head. */
  lemma Enclose(head: string, core: string, x: string, y: string)
    ensures head + (core + x + y) + ")" == head + core + x + y + ")"
  {
  }
}
