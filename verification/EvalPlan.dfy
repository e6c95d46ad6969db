/** The evaluation matrix of backend/scripts/meeting-eval.ts as a list of turns, and when a finished matrix
    counts as a complete release matrix. Run ids are tuples here; in the code they are joined by colons. */
module EvalPlan {
  import opened Pigeonhole

  type Model = string
  datatype Scenario = Scenario(id: string, general: bool)
  datatype Mode = Baseline | Controller
  datatype Turn = Turn(model: Model, scenarioId: string, variant: nat, repeat: nat, mode: Mode)

  const VARIANTS := 3

  // ---- The turns of the four nested loops ---------------------------------------------------------

  /** One cell: general scenarios have a baseline, before the controller's turn on even repeats. */
  function Cell(m: Model, s: Scenario, v: nat, r: nat): seq<Turn> {
    var controller, baseline := Turn(m, s.id, v, r, Controller), Turn(m, s.id, v, r, Baseline);
    if !s.general then [controller] else if r % 2 == 0 then [baseline, controller] else [controller, baseline]
  }

  function UpToRepeat(m: Model, s: Scenario, v: nat, r: nat): seq<Turn> {
    if r == 0 then [] else UpToRepeat(m, s, v, r - 1) + Cell(m, s, v, r - 1)
  }

  function UpToVariant(m: Model, s: Scenario, v: nat, repeats: nat): seq<Turn> {
    if v == 0 then [] else UpToVariant(m, s, v - 1, repeats) + UpToRepeat(m, s, v - 1, repeats)
  }

  function UpToScenario(m: Model, scenarios: seq<Scenario>, j: nat, repeats: nat): seq<Turn>
    requires j <= |scenarios|
  {
    if j == 0 then []
    else UpToScenario(m, scenarios, j - 1, repeats) + UpToVariant(m, scenarios[j - 1], VARIANTS, repeats)
  }

  function UpToModel(models: seq<Model>, i: nat, scenarios: seq<Scenario>, repeats: nat): seq<Turn>
    requires i <= |models|
  {
    if i == 0 then []
    else UpToModel(models, i - 1, scenarios, repeats) + UpToScenario(models[i - 1], scenarios, |scenarios|, repeats)
  }

  function Plan(models: seq<Model>, scenarios: seq<Scenario>, repeats: nat): seq<Turn> {
    UpToModel(models, |models|, scenarios, repeats)
  }

  // ---- Every stage of the loops is a prefix of the plan -------------------------------------------

  /** A prefix of p extended by a part of a growing list is a prefix of p extended by the whole list. */
  lemma PrefixAppend<T>(x: seq<T>, p: seq<T>, a: seq<T>, b: seq<T>)
    requires x <= p + a && a <= b
    ensures x <= p + b
  {
    assert p + a == (p + b)[..|p + a|];
  }

  lemma {:induction false} RepeatsGrow(m: Model, s: Scenario, v: nat, r: nat, repeats: nat)
    requires r <= repeats
    ensures UpToRepeat(m, s, v, r) <= UpToRepeat(m, s, v, repeats)
    decreases repeats
  {
    if r < repeats { RepeatsGrow(m, s, v, r, repeats - 1); }
  }

  lemma {:induction false} VariantsGrow(m: Model, s: Scenario, v: nat, n: nat, repeats: nat)
    requires v <= n
    ensures UpToVariant(m, s, v, repeats) <= UpToVariant(m, s, n, repeats)
    decreases n
  {
    if v < n { VariantsGrow(m, s, v, n - 1, repeats); }
  }

  lemma {:induction false} ScenariosGrow(m: Model, scenarios: seq<Scenario>, j: nat, n: nat, repeats: nat)
    requires j <= n <= |scenarios|
    ensures UpToScenario(m, scenarios, j, repeats) <= UpToScenario(m, scenarios, n, repeats)
    decreases n
  {
    if j < n { ScenariosGrow(m, scenarios, j, n - 1, repeats); }
  }

  lemma {:induction false} ModelsGrow(models: seq<Model>, i: nat, n: nat, scenarios: seq<Scenario>, repeats: nat)
    requires i <= n <= |models|
    ensures UpToModel(models, i, scenarios, repeats) <= UpToModel(models, n, scenarios, repeats)
    decreases n
  {
    if i < n { ModelsGrow(models, i, n - 1, scenarios, repeats); }
  }

  lemma NoModels(models: seq<Model>, before: seq<Turn>, scenarios: seq<Scenario>, repeats: nat)
    ensures before == before + UpToModel(models, 0, scenarios, repeats)
  {}

  lemma OneMoreModel(models: seq<Model>, k: nat, before: seq<Turn>, scenarios: seq<Scenario>, repeats: nat)
    requires k < |models|
    ensures before + UpToModel(models, k, scenarios, repeats) + UpToScenario(models[k], scenarios, |scenarios|, repeats)
            == before + UpToModel(models, k + 1, scenarios, repeats)
  {
    hide UpToScenario;
  }

  // ---- The controller turns are the product -------------------------------------------------------

  function Controllers(turns: seq<Turn>): seq<Turn> {
    if turns == [] then []
    else Controllers(turns[..|turns| - 1]) + if turns[|turns| - 1].mode.Controller? then [turns[|turns| - 1]] else []
  }

  lemma {:induction false} ControllersConcat(a: seq<Turn>, b: seq<Turn>)
    ensures Controllers(a + b) == Controllers(a) + Controllers(b)
    decreases |b|
  {
    if b == [] {
      assert a + b == a;
    } else {
      assert (a + b)[..|a + b| - 1] == a + b[..|b| - 1];
      ControllersConcat(a, b[..|b| - 1]);
    }
  }

  lemma OneController(t: Turn)
    ensures Controllers([t]) == if t.mode.Controller? then [t] else []
  {
    assert [t][..0] == [];
  }

  lemma CellController(m: Model, s: Scenario, v: nat, r: nat)
    ensures Controllers(Cell(m, s, v, r)) == [Turn(m, s.id, v, r, Controller)]
  {
    hide Controllers;
    var c, b := Turn(m, s.id, v, r, Controller), Turn(m, s.id, v, r, Baseline);
    OneController(c);
    OneController(b);
    ControllersConcat([b], [c]);
    ControllersConcat([c], [b]);
    assert [b] + [c] == [b, c] && [c] + [b] == [c, b];
  }

  lemma DistinctAppend<T>(a: seq<T>, b: seq<T>)
    requires Distinct(a) && Distinct(b) && forall x :: x in a ==> x !in b
    ensures Distinct(a + b) && |a + b| == |a| + |b| && forall x :: x in a + b <==> x in a || x in b
  {
    forall i, j | 0 <= i < j < |a + b| ensures (a + b)[i] != (a + b)[j] {
      if i < |a| <= j { assert a[i] in a && b[j - |a|] in b; }
    }
  }

  ghost predicate InCell(t: Turn, m: Model, id: string, v: nat, repeats: nat) {
    t.mode.Controller? && t.model == m && t.scenarioId == id && t.variant == v && t.repeat < repeats
  }

  /** The list holds each repeat of one variant once. */
  ghost predicate RepeatList(c: seq<Turn>, m: Model, id: string, v: nat, r: nat) {
    |c| == r && Distinct(c) && forall t :: t in c <==> InCell(t, m, id, v, r)
  }

  /** The list holds each repeat of the first v variants once. */
  ghost predicate VariantList(c: seq<Turn>, m: Model, id: string, v: nat, repeats: nat) {
    |c| == v * repeats && Distinct(c) && forall t :: t in c <==> t.variant < v && InCell(t, m, id, t.variant, repeats)
  }

  ghost predicate InScenarios(t: Turn, m: Model, scenarios: seq<Scenario>, repeats: nat) {
    t.variant < 3 && (exists s :: s in scenarios && s.id == t.scenarioId)
      && InCell(t, m, t.scenarioId, t.variant, repeats)
  }

  ghost predicate ScenarioList(c: seq<Turn>, m: Model, scenarios: seq<Scenario>, repeats: nat) {
    |c| == |scenarios| * (VARIANTS * repeats) && Distinct(c)
      && forall t :: t in c <==> InScenarios(t, m, scenarios, repeats)
  }

  /** The list holds each combination of a model, scenario, variant and repeat, once if no model repeats. */
  ghost predicate ModelList(c: seq<Turn>, models: seq<Model>, scenarios: seq<Scenario>, repeats: nat) {
    && |c| == |models| * (|scenarios| * (VARIANTS * repeats)) && (Distinct(models) ==> Distinct(c))
    && forall t :: t in c <==> t.model in models && InScenarios(t, t.model, scenarios, repeats)
  }

  lemma RepeatAppend(c: seq<Turn>, m: Model, id: string, v: nat, r: nat)
    requires RepeatList(c, m, id, v, r)
    ensures RepeatList(c + [Turn(m, id, v, r, Controller)], m, id, v, r + 1)
  {
    DistinctAppend(c, [Turn(m, id, v, r, Controller)]);
  }

  lemma VariantAppend(c: seq<Turn>, b: seq<Turn>, m: Model, id: string, v: nat, repeats: nat)
    requires VariantList(c, m, id, v, repeats) && RepeatList(b, m, id, v, repeats)
    ensures VariantList(c + b, m, id, v + 1, repeats)
  {
    DistinctAppend(c, b);
    Distributes(v + 1, repeats);
  }

  ghost predicate DistinctIds(scenarios: seq<Scenario>) {
    forall i, j :: 0 <= i < j < |scenarios| ==> scenarios[i].id != scenarios[j].id
  }

  lemma ScenarioAppend(c: seq<Turn>, b: seq<Turn>, m: Model, scenarios: seq<Scenario>, s: Scenario, repeats: nat)
    requires ScenarioList(c, m, scenarios, repeats) && VariantList(b, m, s.id, VARIANTS, repeats)
    requires forall q :: q in scenarios ==> q.id != s.id
    ensures ScenarioList(c + b, m, scenarios + [s], repeats)
  {
    DistinctAppend(c, b);
    Distributes(|scenarios| + 1, VARIANTS * repeats);
    forall t
      ensures InScenarios(t, m, scenarios + [s], repeats) <==>
        InScenarios(t, m, scenarios, repeats) || (t.variant < VARIANTS && InCell(t, m, s.id, t.variant, repeats))
    {
      OneMoreScenario(scenarios, s, t.scenarioId);
    }
  }

  lemma OneMoreScenario(scenarios: seq<Scenario>, s: Scenario, id: string)
    ensures (exists q :: q in scenarios + [s] && q.id == id) <==>
      (exists q :: q in scenarios && q.id == id) || s.id == id
  {
    if exists q :: q in scenarios && q.id == id {
      var q :| q in scenarios && q.id == id;
      assert q in scenarios + [s];
    }
    if s.id == id { assert s in scenarios + [s]; }
  }

  lemma ModelAppend(c: seq<Turn>, b: seq<Turn>, models: seq<Model>, m: Model, scenarios: seq<Scenario>, repeats: nat)
    requires ModelList(c, models, scenarios, repeats) && ScenarioList(b, m, scenarios, repeats)
    ensures ModelList(c + b, models + [m], scenarios, repeats)
  {
    hide InScenarios;
    Distributes(|models| + 1, |scenarios| * (VARIANTS * repeats));
    forall t ensures t in b ==> t.model == m { BlockModel(b, m, scenarios, repeats, t); }
    if Distinct(models + [m]) {
      assert models == (models + [m])[..|models|];
      assert m !in models by { assert (models + [m])[|models|] == m; }
      DistinctAppend(c, b);
    }
  }

  lemma BlockModel(b: seq<Turn>, m: Model, scenarios: seq<Scenario>, repeats: nat, t: Turn)
    requires ScenarioList(b, m, scenarios, repeats)
    ensures t in b ==> t.model == m
  {}

  lemma Distributes(i: nat, k: nat)
    requires i > 0
    ensures (i - 1) * k + k == i * k
  {}

  lemma NoTurns(m: Model, id: string, repeats: nat, scenarios: seq<Scenario>)
    ensures Controllers([]) == [] && RepeatList([], m, id, 0, 0) && VariantList([], m, id, 0, repeats)
    ensures ScenarioList([], m, [], repeats) && ModelList([], [], scenarios, repeats)
    ensures forall v :: RepeatList([], m, id, v, 0)
  {}

  lemma {:induction false} RepeatControllers(m: Model, s: Scenario, v: nat, r: nat)
    ensures RepeatList(Controllers(UpToRepeat(m, s, v, r)), m, s.id, v, r)
  {
    hide Controllers, RepeatList, VariantList, ScenarioList, ModelList, Cell;
    if r == 0 {
      NoTurns(m, s.id, 0, []);
    } else {
      RepeatControllers(m, s, v, r - 1);
      CellController(m, s, v, r - 1);
      ControllersConcat(UpToRepeat(m, s, v, r - 1), Cell(m, s, v, r - 1));
      RepeatAppend(Controllers(UpToRepeat(m, s, v, r - 1)), m, s.id, v, r - 1);
    }
  }

  lemma {:induction false} VariantControllers(m: Model, s: Scenario, v: nat, repeats: nat)
    ensures VariantList(Controllers(UpToVariant(m, s, v, repeats)), m, s.id, v, repeats)
  {
    hide Controllers, RepeatList, VariantList, ScenarioList, ModelList, UpToRepeat;
    if v == 0 {
      NoTurns(m, s.id, repeats, []);
    } else {
      var before, block := UpToVariant(m, s, v - 1, repeats), UpToRepeat(m, s, v - 1, repeats);
      VariantControllers(m, s, v - 1, repeats);
      RepeatControllers(m, s, v - 1, repeats);
      ControllersConcat(before, block);
      VariantAppend(Controllers(before), Controllers(block), m, s.id, v - 1, repeats);
    }
  }

  lemma {:induction false} ScenarioControllers(m: Model, scenarios: seq<Scenario>, j: nat, repeats: nat)
    requires DistinctIds(scenarios) && j <= |scenarios|
    ensures ScenarioList(Controllers(UpToScenario(m, scenarios, j, repeats)), m, scenarios[..j], repeats)
  {
    hide Controllers, RepeatList, VariantList, ScenarioList, ModelList, UpToVariant;
    if j == 0 {
      NoTurns(m, "", repeats, []);
      assert scenarios[..0] == [];
    } else {
      var s, before := scenarios[j - 1], UpToScenario(m, scenarios, j - 1, repeats);
      var block := UpToVariant(m, s, VARIANTS, repeats);
      ScenarioControllers(m, scenarios, j - 1, repeats);
      VariantControllers(m, s, VARIANTS, repeats);
      ControllersConcat(before, block);
      ScenarioAppend(Controllers(before), Controllers(block), m, scenarios[..j - 1], s, repeats);
      assert scenarios[..j] == scenarios[..j - 1] + [s];
    }
  }

  lemma {:induction false} ModelControllers(models: seq<Model>, i: nat, scenarios: seq<Scenario>, repeats: nat)
    requires DistinctIds(scenarios) && i <= |models|
    ensures ModelList(Controllers(UpToModel(models, i, scenarios, repeats)), models[..i], scenarios, repeats)
  {
    hide Controllers, RepeatList, VariantList, ScenarioList, ModelList, UpToScenario, DistinctIds;
    if i == 0 {
      NoTurns("", "", repeats, scenarios);
      assert models[..0] == [];
    } else {
      var m, before := models[i - 1], UpToModel(models, i - 1, scenarios, repeats);
      var block := UpToScenario(m, scenarios, |scenarios|, repeats);
      assert scenarios[..|scenarios|] == scenarios;
      ModelControllers(models, i - 1, scenarios, repeats);
      ScenarioControllers(m, scenarios, |scenarios|, repeats);
      ControllersConcat(before, block);
      ModelAppend(Controllers(before), Controllers(block), models[..i - 1], m, scenarios, repeats);
      assert models[..i] == models[..i - 1] + [m];
    }
  }

  /** The controller turns of a plan are the product of models, scenarios, variants and repeats. */
  lemma PlanCoversProduct(models: seq<Model>, scenarios: seq<Scenario>, repeats: nat)
    requires DistinctIds(scenarios)
    ensures ModelList(Controllers(Plan(models, scenarios, repeats)), models, scenarios, repeats)
  {
    ModelControllers(models, |models|, scenarios, repeats);
    assert models[..|models|] == models;
  }

  // ---- The baselines ------------------------------------------------------------------------------

  /** A turn of a general scenario stands beside its counterpart in the other mode: the baseline before the
      controller on even repeats and after it on odd ones. Other scenarios have controller turns only. */
  ghost predicate PairedAt(turns: seq<Turn>, general: set<string>, i: nat)
    requires i < |turns|
  {
    var t := turns[i];
    var counterpart := t.(mode := if t.mode.Baseline? then Controller else Baseline);
    var second := if t.repeat % 2 == 0 then t.mode.Controller? else t.mode.Baseline?;
    if t.scenarioId !in general then t.mode.Controller?
    else if second then i > 0 && turns[i - 1] == counterpart
    else i + 1 < |turns| && turns[i + 1] == counterpart
  }

  ghost predicate Paired(turns: seq<Turn>, general: set<string>) {
    forall i: nat :: i < |turns| ==> PairedAt(turns, general, i)
  }

  lemma PairedConcat(a: seq<Turn>, b: seq<Turn>, general: set<string>)
    requires Paired(a, general) && Paired(b, general)
    ensures Paired(a + b, general)
  {
    forall i: nat | i < |a + b| ensures PairedAt(a + b, general, i) {
      if i < |a| { assert PairedAt(a, general, i); } else { assert PairedAt(b, general, i - |a|); }
    }
  }

  lemma CellPaired(m: Model, s: Scenario, v: nat, r: nat, general: set<string>)
    requires s.general <==> s.id in general
    ensures Paired(Cell(m, s, v, r), general)
  {}

  lemma {:induction false} RepeatPaired(m: Model, s: Scenario, v: nat, r: nat, general: set<string>)
    requires s.general <==> s.id in general
    ensures Paired(UpToRepeat(m, s, v, r), general)
  {
    hide Paired, Cell;
    if r == 0 {
      NonePaired(general);
    } else {
      RepeatPaired(m, s, v, r - 1, general);
      CellPaired(m, s, v, r - 1, general);
      PairedConcat(UpToRepeat(m, s, v, r - 1), Cell(m, s, v, r - 1), general);
    }
  }

  lemma NonePaired(general: set<string>)
    ensures Paired([], general)
  {}

  lemma {:induction false} VariantPaired(m: Model, s: Scenario, v: nat, repeats: nat, general: set<string>)
    requires s.general <==> s.id in general
    ensures Paired(UpToVariant(m, s, v, repeats), general)
  {
    hide Paired, UpToRepeat;
    if v == 0 {
      NonePaired(general);
    } else {
      VariantPaired(m, s, v - 1, repeats, general);
      RepeatPaired(m, s, v - 1, repeats, general);
      PairedConcat(UpToVariant(m, s, v - 1, repeats), UpToRepeat(m, s, v - 1, repeats), general);
    }
  }

  lemma {:induction false} ScenarioPaired(m: Model, scenarios: seq<Scenario>, j: nat, repeats: nat,
      general: set<string>)
    requires j <= |scenarios| && forall s :: s in scenarios ==> (s.general <==> s.id in general)
    ensures Paired(UpToScenario(m, scenarios, j, repeats), general)
  {
    hide Paired, UpToVariant;
    if j == 0 {
      NonePaired(general);
    } else {
      ScenarioPaired(m, scenarios, j - 1, repeats, general);
      VariantPaired(m, scenarios[j - 1], VARIANTS, repeats, general);
      PairedConcat(UpToScenario(m, scenarios, j - 1, repeats), UpToVariant(m, scenarios[j - 1], VARIANTS, repeats),
        general);
    }
  }

  lemma {:induction false} ModelPaired(models: seq<Model>, i: nat, scenarios: seq<Scenario>, repeats: nat,
      general: set<string>)
    requires i <= |models| && forall s :: s in scenarios ==> (s.general <==> s.id in general)
    ensures Paired(UpToModel(models, i, scenarios, repeats), general)
  {
    hide Paired, UpToScenario;
    if i == 0 {
      NonePaired(general);
    } else {
      ModelPaired(models, i - 1, scenarios, repeats, general);
      ScenarioPaired(models[i - 1], scenarios, |scenarios|, repeats, general);
      PairedConcat(UpToModel(models, i - 1, scenarios, repeats),
        UpToScenario(models[i - 1], scenarios, |scenarios|, repeats), general);
    }
  }

  /** In a plan exactly the general scenarios have baselines, each beside its controller turn. */
  lemma BaselinesArePaired(models: seq<Model>, scenarios: seq<Scenario>, repeats: nat)
    requires DistinctIds(scenarios)
    ensures Paired(Plan(models, scenarios, repeats), set s | s in scenarios && s.general :: s.id)
  {
    var general := set s | s in scenarios && s.general :: s.id;
    forall s | s in scenarios ensures s.general <==> s.id in general {
      if s.id in general {
        var q :| q in scenarios && q.general && q.id == s.id;
        assert q == s;
      }
    }
    ModelPaired(models, |models|, scenarios, repeats, general);
  }

  // ---- The release matrix -------------------------------------------------------------------------

  /** What isCompleteReleaseMatrix reads of a report. */
  datatype Report = Report(scenarioCount: nat, selected: seq<string>, planned: nat, repeats: nat, offered: seq<Model>,
      turns: seq<Turn>)

  ghost function Product(models: seq<Model>, scenarios: seq<Scenario>, repeats: nat): set<Turn> {
    set m, s, v, r | m in models && s in scenarios && 0 <= v < VARIANTS
      && 0 <= r < repeats :: Turn(m, s.id, v, r, Controller)
  }

  ghost predicate IsComplete(all: seq<Scenario>, report: Report) {
    var expected, actual := Product(report.offered, all, report.repeats), Controllers(report.turns);
    && report.repeats >= 2 && report.scenarioCount == |all| && (forall s :: s in all ==> s.id in report.selected)
    && |expected| > 0 && report.planned == |expected| && |actual| == |expected|
    && |SetOf(actual)| == |expected| && forall t :: t in actual ==> t in expected
  }

  lemma InProduct(t: Turn, models: seq<Model>, scenarios: seq<Scenario>, repeats: nat)
    ensures t in Product(models, scenarios, repeats) <==>
      t.model in models && InScenarios(t, t.model, scenarios, repeats)
  {
    if t.model in models && InScenarios(t, t.model, scenarios, repeats) {
      var s :| s in scenarios && s.id == t.scenarioId;
      assert t == Turn(t.model, s.id, t.variant, t.repeat, Controller);
    }
  }

  lemma ProductSize(models: seq<Model>, scenarios: seq<Scenario>, repeats: nat)
    requires DistinctIds(scenarios) && Distinct(models)
    ensures |Product(models, scenarios, repeats)| == |models| * (|scenarios| * (VARIANTS * repeats))
  {
    hide InScenarios, DistinctIds, Plan, Controllers, Product;
    var c := Controllers(Plan(models, scenarios, repeats));
    PlanCoversProduct(models, scenarios, repeats);
    SizeOfDistinct(c);
    forall t ensures t in SetOf(c) <==> t in Product(models, scenarios, repeats) {
      InProduct(t, models, scenarios, repeats);
    }
    assert SetOf(c) == Product(models, scenarios, repeats);
  }

  ghost predicate Covers(inventory: seq<Model>, offered: seq<Model>) {
    Distinct(inventory) && forall m :: m in offered ==> m in inventory
  }

  ghost predicate SetUp(all: seq<Scenario>, report: Report, inventory: seq<Model>) {
    && DistinctIds(all) && all != [] && Distinct(report.offered) && report.offered != [] && report.repeats >= 1
    && report.scenarioCount == |all| && (forall s :: s in all ==> s.id in report.selected)
    && report.planned == |all| * VARIANTS * report.repeats * |report.offered|
    && (forall m :: m in inventory ==> m in report.offered)
    && report.turns == Plan(inventory, all, report.repeats)
  }

  lemma Reorder(a: nat, b: nat, c: nat, d: nat)
    ensures a * b * c * d == d * (a * (b * c))
  {
    assert a * b * c == a * (b * c);
    assert (a * (b * c)) * d == d * (a * (b * c));
  }

  lemma Positive(a: nat, k: nat, r: nat)
    requires a > 0 && k > 0 && r > 0
    ensures k * (VARIANTS * r) > 0 && a * (k * (VARIANTS * r)) > 0
  {}

  lemma CoveringIsComplete(all: seq<Scenario>, report: Report, inventory: seq<Model>)
    requires SetUp(all, report, inventory) && report.repeats >= 2 && Covers(inventory, report.offered)
    ensures IsComplete(all, report)
  {
    hide InScenarios, DistinctIds, Plan, Controllers, Product;
    var c, offered := Controllers(report.turns), report.offered;
    PlanCoversProduct(inventory, all, report.repeats);
    ProductSize(offered, all, report.repeats);
    SizeOfDistinct(inventory);
    SizeOfDistinct(offered);
    assert SetOf(inventory) == SetOf(offered);
    SizeOfDistinct(c);
    forall t | t in c ensures t in Product(offered, all, report.repeats) { InProduct(t, offered, all, report.repeats); }
    Reorder(|all|, VARIANTS, report.repeats, |offered|);
    Positive(|offered|, |all|, report.repeats);
  }

  lemma SameFactor(a: nat, b: nat, k: nat)
    requires a * k == b * k && k > 0
    ensures a == b
  {}

  lemma CompleteIsCovering(all: seq<Scenario>, report: Report, inventory: seq<Model>)
    requires SetUp(all, report, inventory) && IsComplete(all, report)
    ensures Covers(inventory, report.offered)
  {
    hide InScenarios, DistinctIds, Plan, Controllers, Product;
    var c, offered, repeats := Controllers(report.turns), report.offered, report.repeats;
    PlanCoversProduct(inventory, all, repeats);
    ProductSize(offered, all, repeats);
    Positive(|offered|, |all|, repeats);
    SameFactor(|inventory|, |offered|, |all| * (VARIANTS * repeats));
    SubsetOfSameSize(SetOf(c), Product(offered, all, repeats));
    forall m | m in offered ensures m in inventory {
      var t := Turn(m, all[0].id, 0, 0, Controller);
      FirstCell(t, all, repeats);
      InProduct(t, offered, all, repeats);
      assert t in SetOf(c);
    }
    DistinctFillsList(offered, inventory);
  }

  lemma FirstCell(t: Turn, scenarios: seq<Scenario>, repeats: nat)
    requires scenarios != [] && repeats > 0 && t == Turn(t.model, scenarios[0].id, 0, 0, Controller)
    ensures InScenarios(t, t.model, scenarios, repeats)
  {
    assert scenarios[0] in scenarios;
  }

  /** A matrix that ran to its end over all scenarios is a complete release matrix exactly when there are at
      least two repeats and the inventory lists every offered model, none of them twice. */
  lemma CompleteIffInventoryCovers(all: seq<Scenario>, report: Report, inventory: seq<Model>)
    requires SetUp(all, report, inventory)
    ensures IsComplete(all, report) <==> report.repeats >= 2 && Covers(inventory, report.offered)
  {
    hide SetUp, Covers;
    if IsComplete(all, report) { CompleteIsCovering(all, report, inventory); }
    if report.repeats >= 2 && Covers(inventory, report.offered) { CoveringIsComplete(all, report, inventory); }
  }
}
