/** Choosing an App Service plan for a function app: the filter of
    `findLocationPlan`, the page loop of `GetLocationPlan`, and the plan
    `CreateOrUpdateServicePlan` asks for. The SDK calls themselves are
    left out; listed pages arrive as data. */
module ServicePlans {
  import opened Wrappers

  /** The fields of the SDK's AppServicePlan the filter reads; every
      pointer field of the SDK struct is an Option here. `properties` is
      the embedded properties struct, itself a pointer, that holds
      `Reserved`. */
  datatype SkuDescription = SkuDescription(name: Option<string>)
  datatype PlanProperties = PlanProperties(reserved: Option<bool>)
  datatype AppServicePlan = AppServicePlan(
    name: Option<string>,
    location: Option<string>,
    kind: Option<string>,
    resourceType: Option<string>,
    sku: Option<SkuDescription>,
    properties: Option<PlanProperties>)

  const ConsumptionSku: string := "Y1"
  const FunctionAppKind: string := "functionapp"
  const ServerFarmsType: string := "Microsoft.Web/serverfarms"

  /** Every field the filter dereferences is present. */
  predicate Complete(p: AppServicePlan) {
    && p.location.Some? && p.kind.Some? && p.resourceType.Some?
    && p.sku.Some? && p.sku.value.name.Some?
    && p.properties.Some? && p.properties.value.reserved.Some?
    && p.name.Some?
  }

  /** A plan a Linux consumption function app can run on in `location`. */
  predicate Suitable(p: AppServicePlan, location: string) {
    && Complete(p)
    && p.location.value == location
    && p.sku.value.name.value == ConsumptionSku
    && p.properties.value.reserved.value
    && p.kind.value == FunctionAppKind
    && p.resourceType.value == ServerFarmsType
  }

  /** `k` is the first suitable plan of the list. */
  predicate IsFirstSuitable(plans: seq<AppServicePlan>, location: string, k: int) {
    && 0 <= k < |plans| && Suitable(plans[k], location)
    && forall j :: 0 <= j < k ==> !Suitable(plans[j], location)
  }

  /** The loop of `findLocationPlan` from position `i` on: skip a plan
      with a missing field, then one failing any of the five checks, in
      the source's order; return the name of the first that passes, or
      "" when none does. */
  function FindFrom(plans: seq<AppServicePlan>, location: string, i: nat): (r: string)
    requires i <= |plans|
    requires forall j :: 0 <= j < i ==> !Suitable(plans[j], location)
    ensures (forall k :: i <= k < |plans| ==> !Suitable(plans[k], location)) ==> r == ""
    ensures forall k :: i <= k && IsFirstSuitable(plans, location, k) ==> r == plans[k].name.value
    decreases |plans| - i
  {
    if i == |plans| then ""
    else
      var p := plans[i];
      if || p.location.None? || p.kind.None? || p.resourceType.None?
         || p.sku.None? || p.sku.value.name.None?
         || p.properties.None? || p.properties.value.reserved.None?
         || p.name.None? then
        FindFrom(plans, location, i + 1)
      else if p.location.value != location then FindFrom(plans, location, i + 1)
      else if p.sku.value.name.value != ConsumptionSku then FindFrom(plans, location, i + 1)
      else if !p.properties.value.reserved.value then FindFrom(plans, location, i + 1)
      else if p.kind.value != FunctionAppKind then FindFrom(plans, location, i + 1)
      else if p.resourceType.value != ServerFarmsType then FindFrom(plans, location, i + 1)
      else p.name.value
  }

  /** `findLocationPlan`: the name of the first suitable plan, "" when
      there is none. */
  function FindLocationPlan(plans: seq<AppServicePlan>, location: string): (r: string)
    ensures (forall k :: 0 <= k < |plans| ==> !Suitable(plans[k], location)) ==> r == ""
    ensures forall k :: IsFirstSuitable(plans, location, k) ==> r == plans[k].name.value
  {
    FindFrom(plans, location, 0)
  }

  /** Conversely, a non-empty answer names the first suitable plan. */
  lemma FoundNameIsFirstSuitable(plans: seq<AppServicePlan>, location: string)
    requires FindLocationPlan(plans, location) != ""
    ensures exists k :: IsFirstSuitable(plans, location, k)
                        && plans[k].name == Some(FindLocationPlan(plans, location))
  {
    var k := FirstSuitableExists(plans, location);
  }

  /** When some plan is suitable, one of them comes first. */
  lemma FirstSuitableExists(plans: seq<AppServicePlan>, location: string) returns (k: nat)
    requires exists i :: 0 <= i < |plans| && Suitable(plans[i], location)
    ensures IsFirstSuitable(plans, location, k)
  {
    k := 0;
    while !Suitable(plans[k], location)
      invariant k < |plans|
      invariant forall j :: 0 <= j < k ==> !Suitable(plans[j], location)
      decreases |plans| - k
    {
      k := k + 1;
    }
  }

  // ---------------------------------------------------------------------
  // The page loop of GetLocationPlan.

  /** One page as the listing delivered it: the plans on it, or the error
      that fetching it returned. The first entry is the result of
      `ListByResourceGroup`, each later one of `NextWithContext`. */
  datatype PageFetch = Page(plans: seq<AppServicePlan>) | PageError

  /** `GetLocationPlan`'s (name, found, err): Found(name) for
      (name, true, nil), NotFound for ("", false, nil), ListFailed for an
      error. */
  datatype PlanLookup = Found(name: string) | NotFound | ListFailed

  /** The first `n` pages arrived and none holds a suitable plan. */
  predicate Unmatched(pages: seq<PageFetch>, location: string, n: nat)
    requires n <= |pages|
  {
    forall j :: 0 <= j < n ==> pages[j].Page? && FindLocationPlan(pages[j].plans, location) == ""
  }

  function ScanPages(pages: seq<PageFetch>, location: string, i: nat): (r: PlanLookup)
    requires i <= |pages| && Unmatched(pages, location, i)
    ensures r.NotFound? <==> Unmatched(pages, location, |pages|)
    ensures r.Found? ==> exists k :: i <= k < |pages| && Unmatched(pages, location, k) && pages[k].Page?
                                     && r.name == FindLocationPlan(pages[k].plans, location) && r.name != ""
    ensures r.ListFailed? ==> exists k :: i <= k < |pages| && Unmatched(pages, location, k) && pages[k].PageError?
    decreases |pages| - i
  {
    if i == |pages| then NotFound
    else match pages[i]
      case PageError =>
        assert !Unmatched(pages, location, |pages|);
        ListFailed
      case Page(plans) =>
        var found := FindLocationPlan(plans, location);
        if found != "" then
          assert !Unmatched(pages, location, |pages|);
          Found(found)
        else ScanPages(pages, location, i + 1)
  }

  /** `GetLocationPlan`: pages in order, the first page with a suitable
      plan answers; an error fetching a page before that ends the search. */
  function GetLocationPlan(pages: seq<PageFetch>, location: string): (r: PlanLookup)
    ensures r.NotFound? <==> Unmatched(pages, location, |pages|)
    ensures r.Found? ==> exists k :: 0 <= k < |pages| && Unmatched(pages, location, k) && pages[k].Page?
                                     && r.name == FindLocationPlan(pages[k].plans, location) && r.name != ""
    ensures r.ListFailed? ==> exists k :: 0 <= k < |pages| && Unmatched(pages, location, k) && pages[k].PageError?
  {
    ScanPages(pages, location, 0)
  }

  /** A found plan is a suitable plan in `location` on one of the pages. */
  lemma FoundPlanIsSuitable(pages: seq<PageFetch>, location: string)
    requires GetLocationPlan(pages, location).Found?
    ensures exists k, j :: 0 <= k < |pages| && pages[k].Page? && 0 <= j < |pages[k].plans|
                           && Suitable(pages[k].plans[j], location)
                           && pages[k].plans[j].name == Some(GetLocationPlan(pages, location).name)
  {
    var r := GetLocationPlan(pages, location);
    var k :| 0 <= k < |pages| && Unmatched(pages, location, k) && pages[k].Page?
             && r.name == FindLocationPlan(pages[k].plans, location) && r.name != "";
    FoundNameIsFirstSuitable(pages[k].plans, location);
  }

  // ---------------------------------------------------------------------
  // The plan CreateOrUpdateServicePlan asks for.

  /** The request body of `CreateOrUpdateServicePlan`: a Linux (Reserved)
      consumption (Y1) function-app plan in `location`. The name travels
      as a separate argument, not in the body. */
  function ServicePlanRequest(location: string): (request: AppServicePlan)
    ensures request.name.None?
    ensures forall planName :: Suitable(Listed(request, planName), location)
  {
    AppServicePlan(
      None, Some(location), Some(FunctionAppKind), Some(ServerFarmsType),
      Some(SkuDescription(Some(ConsumptionSku))), Some(PlanProperties(Some(true))))
  }

  /** The plan as a later listing reports it, named `planName`. */
  function Listed(request: AppServicePlan, planName: string): AppServicePlan {
    request.(name := Some(planName))
  }

  /** The plan created for a location passes the lookup's filter for that
      location, and a listing that holds it ahead of any other suitable
      plan finds it by name. */
  lemma CreatedPlanIsFound(planName: string, location: string, before: seq<AppServicePlan>, after: seq<AppServicePlan>)
    requires forall j :: 0 <= j < |before| ==> !Suitable(before[j], location)
    ensures Suitable(Listed(ServicePlanRequest(location), planName), location)
    ensures FindLocationPlan(before + [Listed(ServicePlanRequest(location), planName)] + after, location) == planName
  {
    var plans := before + [Listed(ServicePlanRequest(location), planName)] + after;
    assert IsFirstSuitable(plans, location, |before|);
  }

  // ---------------------------------------------------------------------
  // findLocationPlan as written reads `plan.Reserved` through the embedded
  // properties pointer without checking that pointer, so a plan listed
  // without properties is a nil dereference rather than a skipped plan.

  /** The guard reaches the `Reserved` test with no properties struct. */
  predicate Dereferences(p: AppServicePlan) {
    && p.location.Some? && p.kind.Some? && p.resourceType.Some?
    && p.sku.Some? && p.sku.value.name.Some? && p.properties.None?
  }

  /** The loop as written: None stands for the run-time panic. */
  function FindLocationPlanAsWritten(plans: seq<AppServicePlan>, location: string): (r: Option<string>)
    ensures r.None? <==> exists k :: 0 <= k < |plans| && Dereferences(plans[k])
                                     && forall j :: 0 <= j < k ==> !Suitable(plans[j], location)
    ensures r.Some? ==> r.value == FindLocationPlan(plans, location)
    decreases |plans|
  {
    if |plans| == 0 then Some("")
    else if Dereferences(plans[0]) then None
    else if Suitable(plans[0], location) then
      assert IsFirstSuitable(plans, location, 0);
      Some(plans[0].name.value)
    else
      var rest := FindLocationPlanAsWritten(plans[1..], location);
      assert forall k :: 0 < k < |plans| ==> plans[1..][k - 1] == plans[k];
      SkipFirst(plans, location);
      rest
  }

  /** Skipping an unsuitable first plan does not change the answer. */
  lemma SkipFirst(plans: seq<AppServicePlan>, location: string)
    requires |plans| > 0 && !Suitable(plans[0], location)
    ensures FindLocationPlan(plans, location) == FindLocationPlan(plans[1..], location)
  {
    var rest := plans[1..];
    assert forall k :: 0 < k < |plans| ==> rest[k - 1] == plans[k];
    if exists k :: 0 <= k < |plans| && Suitable(plans[k], location) {
      var k := FirstSuitableExists(plans, location);
      assert IsFirstSuitable(rest, location, k - 1);
    }
  }

  /** The discrepancy: a plan with every other field set but no properties
      makes the loop as written panic, where the corrected filter skips
      it and reports no plan. */
  lemma MissingPropertiesPanics(location: string)
    ensures var p := AppServicePlan(Some("plan"), Some(location), Some(FunctionAppKind), Some(ServerFarmsType),
                                    Some(SkuDescription(Some(ConsumptionSku))), None);
            FindLocationPlanAsWritten([p], location).None? && FindLocationPlan([p], location) == ""
  {
  }
}
