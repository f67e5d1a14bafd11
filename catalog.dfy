/** The fixed catalog of recommendable modules (src/data/modules.ts). */
module Catalog {

  datatype Module = Module(
    id: string,
    name: string,
    description: string,
    benefits: seq<string>,
    implementationTime: string,
    complexity: string)

  /** The six catalog entries in declaration order; the order is also the tie-break order of
      the ranking. */
  const Modules: seq<Module> := [
    Module("itsm", "IT Service Management",
      "Streamline and automate IT service delivery with incident, problem, and change management capabilities.",
      ["Reduce incident resolution time by up to 50%", "Increase first-call resolution rates",
       "Standardize change management processes", "Improve service level agreement (SLA) compliance"],
      "3-6 months", "Medium"),
    Module("itom", "IT Operations Management",
      "Gain visibility into your IT infrastructure and services to proactively prevent outages and optimize resources.",
      ["Reduce service outages by up to 60%", "Decrease mean time to resolution (MTTR)",
       "Optimize cloud resource utilization", "Automate routine operational tasks"],
      "4-8 months", "High"),
    Module("itbm", "IT Business Management",
      "Align IT investments with business outcomes through portfolio management, project management, and financial management.",
      ["Improve IT budget transparency and control", "Enhance project delivery predictability",
       "Optimize application portfolio", "Strengthen IT-business alignment"],
      "4-7 months", "Medium"),
    Module("hrsd", "HR Service Delivery",
      "Transform the employee experience with streamlined HR services, case management, and employee onboarding.",
      ["Reduce HR case resolution time by up to 40%", "Streamline employee onboarding process",
       "Improve employee satisfaction scores", "Increase HR team productivity"],
      "2-5 months", "Medium"),
    Module("csm", "Customer Service Management",
      "Connect customer service with other departments to resolve complex issues quickly and proactively address customer needs.",
      ["Increase customer satisfaction by up to 30%", "Reduce case handling time",
       "Improve first-contact resolution rates", "Enable proactive customer service"],
      "3-6 months", "Medium"),
    Module("app_engine", "App Engine",
      "Build custom applications quickly with low-code tools to digitize and automate unique business processes.",
      ["Accelerate application development by up to 70%", "Reduce technical debt",
       "Enable business-led digital transformation", "Integrate seamlessly with ServiceNow platform"],
      "1-6 months (varies by app)", "Low to High (varies by app)")
  ]

  /** The position of the first module with id `id` in `ms`, or `|ms|` when there is none. */
  function IndexOfId(ms: seq<Module>, id: string): (k: nat)
    ensures k <= |ms|
    ensures k < |ms| ==> ms[k].id == id
    ensures forall i :: 0 <= i < k ==> ms[i].id != id
  {
    if ms == [] then 0
    else if ms[0].id == id then 0
    else 1 + IndexOfId(ms[1..], id)
  }

  /** A module's position in the catalog. */
  function CatalogIndex(m: Module): nat {
    IndexOfId(Modules, m.id)
  }

  ghost predicate DistinctIds(ms: seq<Module>) {
    forall i, j :: 0 <= i < j < |ms| ==> ms[i].id != ms[j].id
  }

  /** Six entries, in the order itsm, itom, itbm, hrsd, csm, app_engine. */
  lemma CatalogShape()
    ensures |Modules| == 6
    ensures Modules[0].id == "itsm" && Modules[1].id == "itom" && Modules[2].id == "itbm"
    ensures Modules[3].id == "hrsd" && Modules[4].id == "csm" && Modules[5].id == "app_engine"
  {
  }

  /** No two catalog modules share an id. */
  lemma CatalogIdsDistinct()
    ensures DistinctIds(Modules)
  {
  }

  /** Every module's catalog position is where it stands: the catalog order is a strict
      order on its modules. */
  lemma CatalogIndexOfEntry(k: nat)
    requires k < |Modules|
    ensures CatalogIndex(Modules[k]) == k
  {
    CatalogIdsDistinct();
  }

  /** The implementation times, as written. */
  lemma CatalogTimes()
    ensures Modules[0].implementationTime == "3-6 months" && Modules[1].implementationTime == "4-8 months"
    ensures Modules[2].implementationTime == "4-7 months" && Modules[3].implementationTime == "2-5 months"
    ensures Modules[4].implementationTime == "3-6 months"
    ensures Modules[5].implementationTime == "1-6 months (varies by app)"
  {
  }

  /** Every module lists exactly four benefits, so the first benefit is always defined. */
  lemma CatalogBenefits()
    ensures forall m :: m in Modules ==> |m.benefits| == 4
  {
  }
}
