/** Region and zone tags (validateTagCategories and validateTagAttachment in pkg/check/zones.go). */
module Tags {
  import opened Options

  datatype Category = Category(id: string, name: string)

  datatype Tag = Tag(name: string, categoryID: string)

  datatype Reference = Reference(kind: string, value: string)

  datatype AttachedTags = AttachedTags(target: Reference, tags: seq<Tag>)

  const REGION_CATEGORY := "openshift-region"
  const ZONE_CATEGORY := "openshift-zone"

  // ---------------------------------------------------------------- validateTagCategories

  datatype CategoryIDs = CategoryIDs(region: string, zone: string)

  function Seen(ids: CategoryIDs, category: Category): CategoryIDs {
    if category.name == REGION_CATEGORY then ids.(region := category.id)
    else if category.name == ZONE_CATEGORY then ids.(zone := category.id)
    else ids
  }

  predicate Complete(ids: CategoryIDs) {
    ids.region != "" && ids.zone != ""
  }

  /** The ids after a number of categories, each the one of the latest category of its name. */
  function After(categories: seq<Category>): CategoryIDs {
    if categories == [] then CategoryIDs("", "")
    else Seen(After(categories[..|categories| - 1]), categories[|categories| - 1])
  }

  /** The first ids that are both there; categories after that are not read. */
  function Validated(categories: seq<Category>): (r: Option<CategoryIDs>)
    ensures r.Some? ==> Complete(r.value)
  {
    if categories == [] then None
    else
      var earlier := Validated(categories[..|categories| - 1]);
      if earlier.Some? then earlier
      else if Complete(After(categories)) then Some(After(categories)) else None
  }

  lemma {:induction false} ValidatedStays(categories: seq<Category>, k: nat)
    requires k <= |categories| && Validated(categories[..k]).Some?
    ensures Validated(categories) == Validated(categories[..k])
  {
    if k < |categories| {
      assert categories[..|categories| - 1][..k] == categories[..k];
      ValidatedStays(categories[..|categories| - 1], k);
    } else {
      assert categories[..k] == categories;
    }
  }

  method ValidateTagCategories(categories: seq<Category>) returns (r: Option<CategoryIDs>)
    ensures r == Validated(categories)
  {
    var ids := CategoryIDs("", "");
    for k := 0 to |categories|
      invariant ids == After(categories[..k])
      invariant Validated(categories[..k]).None?
    {
      assert categories[..k + 1][..k] == categories[..k];
      if categories[k].name == REGION_CATEGORY {
        ids := ids.(region := categories[k].id);
      } else if categories[k].name == ZONE_CATEGORY {
        ids := ids.(zone := categories[k].id);
      }
      if |ids.zone| > 0 && |ids.region| > 0 {
        ValidatedStays(categories, k + 1);
        return Some(ids);
      }
    }
    assert categories[..|categories|] == categories;
    return None;
  }

  ghost predicate NamedIn(categories: seq<Category>, name: string) {
    exists c :: c in categories && c.name == name
  }

  lemma {:induction false} AfterNames(categories: seq<Category>)
    requires forall c :: c in categories ==> c.id != ""
    ensures After(categories).region != "" <==> NamedIn(categories, REGION_CATEGORY)
    ensures After(categories).zone != "" <==> NamedIn(categories, ZONE_CATEGORY)
    ensures After(categories).region != "" ==> Category(After(categories).region, REGION_CATEGORY) in categories
    ensures After(categories).zone != "" ==> Category(After(categories).zone, ZONE_CATEGORY) in categories
  {
    if categories != [] {
      var init, last := categories[..|categories| - 1], categories[|categories| - 1];
      AfterNames(init);
      assert categories == init + [last];
    }
  }

  /** As ids are not empty: validation succeeds exactly when both categories exist, and yields ids of
      categories of these names. */
  lemma {:induction false} CategoriesFoundExactlyWhenPresent(categories: seq<Category>)
    requires forall c :: c in categories ==> c.id != ""
    ensures Validated(categories).Some? <==>
            NamedIn(categories, REGION_CATEGORY) && NamedIn(categories, ZONE_CATEGORY)
    ensures Validated(categories).Some? ==>
              && Category(Validated(categories).value.region, REGION_CATEGORY) in categories
              && Category(Validated(categories).value.zone, ZONE_CATEGORY) in categories
  {
    AfterNames(categories);
    if categories != [] {
      var init := categories[..|categories| - 1];
      CategoriesFoundExactlyWhenPresent(init);
      assert categories == init + [categories[|categories| - 1]];
    }
  }

  /** No later category has this name. */
  ghost predicate IsLatest(categories: seq<Category>, k: nat, name: string) {
    && k < |categories| && categories[k].name == name
    && forall j :: k < j < |categories| ==> categories[j].name != name
  }

  /** The ids are those of the latest categories of the two names. */
  lemma {:induction false} IdsOfLatest(categories: seq<Category>, k: nat)
    ensures IsLatest(categories, k, "openshift-region") ==> After(categories).region == categories[k].id
    ensures IsLatest(categories, k, "openshift-zone") ==> After(categories).zone == categories[k].id
  {
    if categories != [] {
      var n := |categories| - 1;
      var init := categories[..n];
      IdsOfLatest(init, k);
      if k < n {
        assert IsLatest(categories, k, "openshift-region") ==> IsLatest(init, k, "openshift-region");
        assert IsLatest(categories, k, "openshift-zone") ==> IsLatest(init, k, "openshift-zone");
      }
    }
  }

  /** Validation ends with the first categories after which both ids are there, or fails when they never are. */
  lemma {:induction false} ValidatedAtFirst(categories: seq<Category>)
    ensures Validated(categories).Some? ==> exists n ::
      && 0 <= n <= |categories|
      && Validated(categories) == Some(After(categories[..n]))
      && After(categories[..n]).region != "" && After(categories[..n]).zone != ""
      && forall m :: 0 <= m < n ==> After(categories[..m]).region == "" || After(categories[..m]).zone == ""
    ensures Validated(categories).None? ==>
      forall m :: 0 <= m <= |categories| ==> After(categories[..m]).region == "" || After(categories[..m]).zone == ""
  {
    if categories == [] {
      assert categories[..0] == [];
    } else {
      var init := categories[..|categories| - 1];
      ValidatedAtFirst(init);
      assert categories[..|categories|] == categories;
      assert forall m :: 0 <= m <= |init| ==> categories[..m] == init[..m];
    }
  }

  // ---------------------------------------------------------------- validateTagAttachment

  datatype Kind = RegionTag | ZoneTag

  /** The affinities of a failure domain, each a type if there is one. */
  datatype Affinities = Affinities(region: Option<string>, zone: Option<string>)

  predicate RegionAllowed(affinities: Affinities, kind: string) {
    match affinities.region
    case Some("Datacenter") => kind == "Datacenter"
    case Some("ComputeCluster") => kind == "ClusterComputeResource"
    case _ => true
  }

  predicate ZoneAllowed(affinities: Affinities, kind: string) {
    affinities.zone == Some("ComputeCluster") ==> kind == "ClusterComputeResource"
  }

  predicate Allowed(k: Kind, affinities: Affinities, kind: string) {
    if k.RegionTag? then RegionAllowed(affinities, kind) else ZoneAllowed(affinities, kind)
  }

  predicate Carries(tags: seq<Tag>, id: string) {
    exists t :: t in tags && t.categoryID == id
  }

  function IdOf(k: Kind, ids: CategoryIDs): string {
    if k.RegionTag? then ids.region else ids.zone
  }

  /** Some object that the affinity allows carries a tag of the kind's category. */
  ghost predicate IsAttached(k: Kind, attached: seq<AttachedTags>, ids: CategoryIDs, affinities: Affinities) {
    exists o :: o in attached && Allowed(k, affinities, o.target.kind) && Carries(o.tags, IdOf(k, ids))
  }

  /** Same, with the last object read only up to a tag. */
  ghost predicate AttachedSoFar(k: Kind, done: seq<AttachedTags>, o: AttachedTags, tags: seq<Tag>,
                                ids: CategoryIDs, affinities: Affinities)
  {
    IsAttached(k, done, ids, affinities) || (Allowed(k, affinities, o.target.kind) && Carries(tags, IdOf(k, ids)))
  }

  lemma CarriesSnoc(tags: seq<Tag>, t: Tag, id: string)
    ensures Carries(tags + [t], id) <==> Carries(tags, id) || t.categoryID == id
  {
    if t.categoryID == id { assert t in tags + [t]; }
    if Carries(tags, id) {
      var u :| u in tags && u.categoryID == id;
      assert u in tags + [t];
    }
  }

  lemma AttachedSnoc(k: Kind, done: seq<AttachedTags>, o: AttachedTags, ids: CategoryIDs, affinities: Affinities)
    ensures IsAttached(k, done + [o], ids, affinities) <==> AttachedSoFar(k, done, o, o.tags, ids, affinities)
  {
    assert o in done + [o];
    assert forall p :: p in done ==> p in done + [o];
  }

  lemma AttachedStays(k: Kind, attached: seq<AttachedTags>, n: nat, m: nat, ids: CategoryIDs, affinities: Affinities)
    requires n < |attached| && m <= |attached[n].tags|
    requires AttachedSoFar(k, attached[..n], attached[n], attached[n].tags[..m], ids, affinities)
    ensures IsAttached(k, attached, ids, affinities)
  {
    assert attached[n] in attached;
  }

  /** The scan over the attached tags; nil is the empty list of missing kinds. */
  method ValidateTagAttachment(attached: seq<AttachedTags>, ids: CategoryIDs, affinities: Affinities)
    returns (missing: seq<Kind>)
    ensures missing == (if IsAttached(RegionTag, attached, ids, affinities) then [] else [RegionTag])
                     + (if IsAttached(ZoneTag, attached, ids, affinities) then [] else [ZoneTag])
  {
    var region, zone := false, false;
    for n := 0 to |attached|
      invariant region == IsAttached(RegionTag, attached[..n], ids, affinities)
      invariant zone == IsAttached(ZoneTag, attached[..n], ids, affinities)
    {
      var o := attached[n];
      assert attached[..n + 1] == attached[..n] + [o];
      for m := 0 to |o.tags|
        invariant region == AttachedSoFar(RegionTag, attached[..n], o, o.tags[..m], ids, affinities)
        invariant zone == AttachedSoFar(ZoneTag, attached[..n], o, o.tags[..m], ids, affinities)
      {
        var tag := o.tags[m];
        assert o.tags[..m + 1] == o.tags[..m] + [tag];
        CarriesSnoc(o.tags[..m], tag, ids.region);
        CarriesSnoc(o.tags[..m], tag, ids.zone);
        if !region && tag.categoryID == ids.region {
          if affinities.region == Some("Datacenter") {
            region := o.target.kind == "Datacenter";
          } else if affinities.region == Some("ComputeCluster") {
            region := o.target.kind == "ClusterComputeResource";
          } else {
            region := true;
          }
        }
        if !zone && tag.categoryID == ids.zone {
          if affinities.zone == Some("ComputeCluster") {
            zone := o.target.kind == "ClusterComputeResource";
          } else {
            zone := true;
          }
        }
        if region && zone {
          AttachedStays(RegionTag, attached, n, m + 1, ids, affinities);
          AttachedStays(ZoneTag, attached, n, m + 1, ids, affinities);
          return [];
        }
      }
      assert o.tags[..|o.tags|] == o.tags;
      AttachedSnoc(RegionTag, attached[..n], o, ids, affinities);
      AttachedSnoc(ZoneTag, attached[..n], o, ids, affinities);
    }
    assert attached[..|attached|] == attached;
    missing := (if region then [] else [RegionTag]) + (if zone then [] else [ZoneTag]);
  }

  /** An affinity only narrows: what passes with affinities passes without them, and further tags and
      objects never make a kind missing. */
  lemma AffinityOnlyNarrows(k: Kind, attached: seq<AttachedTags>, more: seq<AttachedTags>, ids: CategoryIDs,
                            affinities: Affinities)
    requires IsAttached(k, attached, ids, affinities)
    ensures IsAttached(k, attached + more, ids, affinities)
    ensures IsAttached(k, attached, ids, Affinities(None, None))
  {
    var o :| o in attached && Allowed(k, affinities, o.target.kind) && Carries(o.tags, IdOf(k, ids));
    assert o in attached + more;
  }

  /** A region tag counts on any object, or with an affinity only on a datacenter or a cluster; a zone tag likewise only
      on a cluster. */
  lemma AttachedExactlyWhen(attached: seq<AttachedTags>, ids: CategoryIDs, affinities: Affinities)
    ensures IsAttached(RegionTag, attached, ids, affinities) <==> exists o, t ::
      && o in attached && t in o.tags && t.categoryID == ids.region
      && (affinities.region == Some("Datacenter") ==> o.target.kind == "Datacenter")
      && (affinities.region == Some("ComputeCluster") ==> o.target.kind == "ClusterComputeResource")
    ensures IsAttached(ZoneTag, attached, ids, affinities) <==> exists o, t ::
      && o in attached && t in o.tags && t.categoryID == ids.zone
      && (affinities.zone == Some("ComputeCluster") ==> o.target.kind == "ClusterComputeResource")
  {
    if o, t :| o in attached && t in o.tags && t.categoryID == ids.region
               && (affinities.region == Some("Datacenter") ==> o.target.kind == "Datacenter")
               && (affinities.region == Some("ComputeCluster") ==> o.target.kind == "ClusterComputeResource")
    {
      assert Allowed(RegionTag, affinities, o.target.kind) && Carries(o.tags, IdOf(RegionTag, ids));
    }
    if o, t :| o in attached && t in o.tags && t.categoryID == ids.zone
               && (affinities.zone == Some("ComputeCluster") ==> o.target.kind == "ClusterComputeResource")
    {
      assert Allowed(ZoneTag, affinities, o.target.kind) && Carries(o.tags, IdOf(ZoneTag, ids));
    }
  }
}
