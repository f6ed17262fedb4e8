/** Deploying a function app: the settings merge of `UpdateAppSettings`,
    the `serverFarmID` format, and the decisions of `CreateFunctionApp`.
    Each SDK call is left out; the model returns what would be sent. */
module FunctionApps {
  import opened Wrappers
  import opened Strings
  import opened ServicePlans

  /** Application settings, name to value. */
  type Settings = map<string, string>

  /** `UpdateAppSettings`: the listed settings with every new key written
      over them; keys the update does not mention keep their values. */
  function UpdateAppSettings(current: Settings, newSettings: Settings): (r: Settings)
    ensures r.Keys == current.Keys + newSettings.Keys
    ensures forall k :: k in newSettings ==> r[k] == newSettings[k]
    ensures forall k :: k in current && k !in newSettings ==> r[k] == current[k]
  {
    current + newSettings
  }

  /** Applying the same update twice is applying it once, and two updates
      in a row are one update with the later one winning. */
  lemma UpdateComposes(current: Settings, first: Settings, second: Settings)
    ensures UpdateAppSettings(UpdateAppSettings(current, first), first) == UpdateAppSettings(current, first)
    ensures UpdateAppSettings(UpdateAppSettings(current, first), second)
            == UpdateAppSettings(current, UpdateAppSettings(first, second))
  {
  }

  /** `serverFarmID`: the resource ID of plan `planName` in the resource
      group of the subscription. It is its nine parts joined by slashes,
      and, when the three names hold no slash, it splits back into them. */
  function ServerFarmID(subscription: string, resourceGroup: string, planName: string): (id: string)
    ensures id == Join(FarmIDParts(subscription, resourceGroup, planName), '/')
    ensures '/' !in subscription && '/' !in resourceGroup && '/' !in planName ==>
              Split(id, '/') == FarmIDParts(subscription, resourceGroup, planName)
  {
    FarmIDIsJoin(subscription, resourceGroup, planName);
    FarmIDPartsSplit(subscription, resourceGroup, planName);
    "/subscriptions/" + subscription + "/resourceGroups/" + resourceGroup
      + "/providers/Microsoft.web/serverfarms/" + planName
  }

  /** Different plans (with slash-free names) get different IDs. */
  lemma ServerFarmIDInjective(sub1: string, rg1: string, plan1: string, sub2: string, rg2: string, plan2: string)
    requires '/' !in sub1 && '/' !in rg1 && '/' !in plan1
    requires '/' !in sub2 && '/' !in rg2 && '/' !in plan2
    requires ServerFarmID(sub1, rg1, plan1) == ServerFarmID(sub2, rg2, plan2)
    ensures sub1 == sub2 && rg1 == rg2 && plan1 == plan2
  {
    var parts1 := FarmIDParts(sub1, rg1, plan1);
    var parts2 := FarmIDParts(sub2, rg2, plan2);
    assert parts1 == parts2;
    assert parts1[2] == sub1 && parts1[4] == rg1 && parts1[8] == plan1;
  }

  /** The nine slash-separated parts of a server farm ID. */
  function FarmIDParts(subscription: string, resourceGroup: string, planName: string): seq<string> {
    ["", "subscriptions", subscription, "resourceGroups", resourceGroup,
     "providers", "Microsoft.web", "serverfarms", planName]
  }

  /** Splitting the joined parts gives the parts back when the names hold
      no slash. */
  lemma FarmIDPartsSplit(subscription: string, resourceGroup: string, planName: string)
    ensures '/' !in subscription && '/' !in resourceGroup && '/' !in planName ==>
              Split(Join(FarmIDParts(subscription, resourceGroup, planName), '/'), '/')
              == FarmIDParts(subscription, resourceGroup, planName)
  {
    if '/' !in subscription && '/' !in resourceGroup && '/' !in planName {
      var parts := FarmIDParts(subscription, resourceGroup, planName);
      assert forall i :: 0 <= i < |parts| ==> '/' !in parts[i] by {
        assert '/' !in "subscriptions" && '/' !in "resourceGroups" && '/' !in "providers";
        assert '/' !in "Microsoft.web" && '/' !in "serverfarms";
      }
      SplitJoin(parts, '/');
    }
  }

  /** The ID format is the slash-join of its parts. */
  lemma FarmIDIsJoin(subscription: string, resourceGroup: string, planName: string)
    ensures Join(FarmIDParts(subscription, resourceGroup, planName), '/')
            == "/subscriptions/" + subscription + "/resourceGroups/" + resourceGroup
               + "/providers/Microsoft.web/serverfarms/" + planName
  {
    var parts := FarmIDParts(subscription, resourceGroup, planName);
    var providers := "/providers/Microsoft.web/serverfarms/" + planName;
    var tail := Join(parts[4..], '/');
    assert tail == resourceGroup + providers by {
      JoinFromFour(parts[4..], '/');
      assert parts[4..][4..] == [planName];
      ProvidersPath(planName);
    }
    assert Join(parts, '/') == "/subscriptions/" + subscription + "/resourceGroups/" + tail by {
      JoinFromFour(parts, '/');
      GroupAndSubscriptionPath(subscription, resourceGroup, tail);
    }
    Regroup("/subscriptions/" + subscription + "/resourceGroups/", resourceGroup, providers);
  }

  lemma Regroup(head: string, middle: string, last: string)
    ensures head + (middle + last) == head + middle + last
  {
  }

  /** Four parts peeled off the front of a `Join`. */
  lemma JoinFromFour(parts: seq<string>, sep: char)
    requires |parts| >= 5
    ensures Join(parts, sep) == parts[0] + ([sep] + (parts[1] + ([sep] + (parts[2] + ([sep]
                                + (parts[3] + ([sep] + Join(parts[4..], sep))))))))
  {
    var p1 := parts[1..];
    var p2 := p1[1..];
    var p3 := p2[1..];
    assert p3[1..] == parts[4..];
    JoinCons(parts, sep);
    JoinCons(p1, sep);
    JoinCons(p2, sep);
    JoinCons(p3, sep);
  }

  lemma JoinCons(parts: seq<string>, sep: char)
    requires |parts| >= 2
    ensures Join(parts, sep) == parts[0] + ([sep] + Join(parts[1..], sep))
  {
  }

  lemma ProvidersPath(planName: string)
    ensures ['/'] + ("providers" + (['/'] + ("Microsoft.web" + (['/'] + ("serverfarms" + (['/'] + planName))))))
            == "/providers/Microsoft.web/serverfarms/" + planName
  {
  }

  lemma GroupAndSubscriptionPath(subscription: string, resourceGroup: string, rest: string)
    ensures "" + (['/'] + ("subscriptions" + (['/'] + (subscription + (['/'] + ("resourceGroups" + (['/'] + rest)))))))
            == "/subscriptions/" + subscription + "/resourceGroups/" + rest
  {
  }

  const FunctionAppSiteKind: string := "functionapp,linux"

  /** The site `CreateFunctionApp` creates or updates. */
  datatype Site = Site(name: string, kind: string, location: string, serverFarmID: string)

  /** What a successful `CreateFunctionApp` sends: the site, then the app
      settings it leaves after its settings update. */
  datatype Deployment = Deployment(site: Site, settings: Settings)

  datatype DeployError =
    | PlanLookupFailed   // the error GetLocationPlan returned
    | NoValidServicePlan // "couldn't find a valid service plan"

  /** The four settings every function app gets. */
  function FunctionAppSettings(contentURL: string): (r: Settings)
    ensures r.Keys == {"WEBSITE_RUN_FROM_PACKAGE", "WEBSITE_MOUNT_ENABLED",
                       "FUNCTIONS_EXTENSION_VERSION", "FUNCTIONS_WORKER_RUNTIME"}
    ensures r["WEBSITE_RUN_FROM_PACKAGE"] == contentURL
  {
    map["WEBSITE_RUN_FROM_PACKAGE" := contentURL,
        "WEBSITE_MOUNT_ENABLED" := "1",
        "FUNCTIONS_EXTENSION_VERSION" := "~3",
        "FUNCTIONS_WORKER_RUNTIME" := "custom"]
  }

  /** `CreateFunctionApp`: with no plan named, look one up among the
      listed `pages` and stop when there is none; then create the site on
      that plan and merge the four fixed settings into `current`, the
      settings the app already has. */
  function CreateFunctionApp(subscription: string, resourceGroup: string, appName: string, contentURL: string,
                             location: string, servicePlan: string, pages: seq<PageFetch>, current: Settings)
    : (r: Result<Deployment, DeployError>)
    ensures servicePlan == "" && GetLocationPlan(pages, location).NotFound? ==> r == Failure(NoValidServicePlan)
    ensures servicePlan == "" && GetLocationPlan(pages, location).ListFailed? ==> r == Failure(PlanLookupFailed)
    ensures r.Failure? ==> servicePlan == ""
    ensures r.Success? <==> servicePlan != "" || GetLocationPlan(pages, location).Found?
    ensures r.Success? ==>
              && r.value.site == Site(appName, FunctionAppSiteKind, location, r.value.site.serverFarmID)
              && r.value.settings == UpdateAppSettings(current, FunctionAppSettings(contentURL))
    ensures r.Success? && servicePlan != "" ==>
              r.value.site.serverFarmID == ServerFarmID(subscription, resourceGroup, servicePlan)
    ensures r.Success? && servicePlan == "" ==>
              exists plan :: GetLocationPlan(pages, location) == Found(plan) && plan != ""
                             && r.value.site.serverFarmID == ServerFarmID(subscription, resourceGroup, plan)
  {
    var plan: Result<string, DeployError> :=
      if servicePlan != "" then Success(servicePlan)
      else match GetLocationPlan(pages, location)
        case Found(name) => Success(name)
        case NotFound => Failure(NoValidServicePlan)
        case ListFailed => Failure(PlanLookupFailed);
    match plan
    case Failure(e) => Failure(e)
    case Success(name) =>
      var site := Site(appName, FunctionAppSiteKind, location, ServerFarmID(subscription, resourceGroup, name));
      Success(Deployment(site, UpdateAppSettings(current, FunctionAppSettings(contentURL))))
  }

  /** A named plan is used as given: the listing is never consulted. */
  lemma NamedPlanSkipsLookup(subscription: string, resourceGroup: string, appName: string, contentURL: string,
                             location: string, servicePlan: string, pages1: seq<PageFetch>, pages2: seq<PageFetch>,
                             current: Settings)
    requires servicePlan != ""
    ensures CreateFunctionApp(subscription, resourceGroup, appName, contentURL, location, servicePlan, pages1, current)
            == CreateFunctionApp(subscription, resourceGroup, appName, contentURL, location, servicePlan, pages2, current)
  {
  }

  /** After a deployment exactly the four fixed keys are new or changed;
      every other setting the app had is still there with its value. */
  lemma DeploymentSettings(subscription: string, resourceGroup: string, appName: string, contentURL: string,
                           location: string, servicePlan: string, pages: seq<PageFetch>, current: Settings)
    requires CreateFunctionApp(subscription, resourceGroup, appName, contentURL, location, servicePlan, pages, current).Success?
    ensures var s := CreateFunctionApp(subscription, resourceGroup, appName, contentURL, location, servicePlan, pages, current).value.settings;
            && s.Keys == current.Keys + {"WEBSITE_RUN_FROM_PACKAGE", "WEBSITE_MOUNT_ENABLED",
                                         "FUNCTIONS_EXTENSION_VERSION", "FUNCTIONS_WORKER_RUNTIME"}
            && s["WEBSITE_RUN_FROM_PACKAGE"] == contentURL && s["WEBSITE_MOUNT_ENABLED"] == "1"
            && s["FUNCTIONS_EXTENSION_VERSION"] == "~3" && s["FUNCTIONS_WORKER_RUNTIME"] == "custom"
            && forall k :: k in current && k !in FunctionAppSettings(contentURL) ==> s[k] == current[k]
  {
  }

  /** A looked-up plan is a suitable plan of the location: one listed as
      a Linux consumption function-app server farm there. */
  lemma LookedUpPlanIsSuitable(subscription: string, resourceGroup: string, appName: string, contentURL: string,
                               location: string, pages: seq<PageFetch>, current: Settings)
    requires CreateFunctionApp(subscription, resourceGroup, appName, contentURL, location, "", pages, current).Success?
    ensures exists k, j :: 0 <= k < |pages| && pages[k].Page? && 0 <= j < |pages[k].plans|
                           && Suitable(pages[k].plans[j], location)
                           && CreateFunctionApp(subscription, resourceGroup, appName, contentURL, location, "", pages, current).value.site.serverFarmID
                              == ServerFarmID(subscription, resourceGroup, pages[k].plans[j].name.value)
  {
    FoundPlanIsSuitable(pages, location);
  }
}
