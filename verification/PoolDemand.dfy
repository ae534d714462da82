/** `pool_controller.py`: pending desktop demand, collapsed onto one scope per physical VM pool. */
module PoolDemand {
  import opened Prelude
  import opened Sessions
  import Json

  const SUPPORTED_POOL_VM_TYPES: seq<string> := ["ubuntu", "windows"]

  // ---- the catalog of locations ----

  datatype Location = Location(id: string, region: string, zones: seq<string>)

  datatype Placement = Placement(location: Location, zone: string)

  type Catalog = map<string, Location>

  datatype PlacementResult = Placed(placement: Option<Placement>) | Invalid(error: string)

  predicate IsSpace(c: char) {
    c == ' ' || '\t' <= c <= '\r'
  }

  function Strip(s: string): string {
    if s == "" then ""
    else if IsSpace(s[0]) then Strip(s[1..])
    else if IsSpace(s[|s| - 1]) then Strip(s[..|s| - 1])
    else s
  }

  function TextOf(fields: map<string, Json.Value>, key: string): string {
    match Json.Get(fields, key)
    case Text(s) => s
    case _ => ""
  }

  /** `placement_from_ref`: nothing named is no placement; something named must be in the catalog. */
  function PlacementFromRef(ref: map<string, Json.Value>, catalog: Catalog): PlacementResult {
    var id := Strip(if TextOf(ref, "poolLocation") != "" then TextOf(ref, "poolLocation") else TextOf(ref, "region"));
    var region := Strip(TextOf(ref, "region"));
    var zone := Strip(TextOf(ref, "zone"));
    if id == "" || zone == "" then Placed(None)
    else if id !in catalog then Invalid("Unknown GCP VM pool location: " + id)
    else if region != "" && region != catalog[id].region
        then Invalid("Pool location " + id + " does not match declared region " + region)
    else if zone !in catalog[id].zones then Invalid("Zone " + zone + " is not part of pool location " + id)
    else Placed(Some(Placement(catalog[id], zone)))
  }

  /** What is stripped off is space, and what is left neither begins nor ends with any. */
  lemma {:induction false} StripMeans(s: string) returns (i: nat, j: nat)
    ensures i <= j <= |s| && Strip(s) == s[i..j]
    ensures forall k :: 0 <= k < |s| && !(i <= k < j) ==> s[k] == ' ' || '\t' <= s[k] <= '\r'
    ensures i < j ==> !IsSpace(s[i]) && !IsSpace(s[j - 1])
    decreases |s|
  {
    if s == "" {
      i, j := 0, 0;
    } else if IsSpace(s[0]) {
      i, j := StripMeans(s[1..]);
      assert s[1..][i..j] == s[i + 1..j + 1];
      assert forall k :: 0 < k < |s| ==> s[k] == s[1..][k - 1];
      i, j := i + 1, j + 1;
    } else if IsSpace(s[|s| - 1]) {
      i, j := StripMeans(s[..|s| - 1]);
    } else {
      i, j := 0, |s|;
    }
  }

  /**
   * A placement comes of a location of the catalog, named by itself or else by its region, that a region named
   * too agrees with, and of one of its zones; it is missing where no location or no zone is named.
   */
  lemma PlacedMeans(ref: map<string, Json.Value>, catalog: Catalog)
    ensures var location, region, zone := TextOf(ref, "poolLocation"), TextOf(ref, "region"), TextOf(ref, "zone");
            var id := Strip(if location == "" then region else location);
            && (PlacementFromRef(ref, catalog) == Placed(None) <==> id == "" || Strip(zone) == "")
            && (forall at :: PlacementFromRef(ref, catalog) == Placed(Some(at)) <==>
                  && id != "" && id in catalog && at == Placement(catalog[id], Strip(zone))
                  && (Strip(region) == "" || Strip(region) == at.location.region)
                  && at.zone != "" && at.zone in at.location.zones)
  {
  }

  /** A text is read where there is one; anything else reads as empty. */
  lemma TextMeans(fields: map<string, Json.Value>, key: string)
    ensures key in fields && fields[key].Text? ==> TextOf(fields, key) == fields[key].s
    ensures !(key in fields && fields[key].Text?) ==> TextOf(fields, key) == ""
  {
  }

  // ---- which sessions wait ----

  predicate Truthy(value: Json.Value) {
    match value
    case Null => false
    case Bool(b) => b
    case Number(n) => n != 0.0
    case Text(s) => s != ""
    case List(items) => items != []
    case Object(fields) => fields != map[]
  }

  function FieldsOf(value: Json.Value): map<string, Json.Value> {
    if value.Object? then value.fields else map[]
  }

  function Desktop(session: Session): map<string, Json.Value> {
    FieldsOf(Json.Get(session.spec, "desktop"))
  }

  /** A running session that needs a desktop, has no VM, and is in phase PendingVM. */
  predicate Waits(session: Session) {
    && DesiredState(session) == RUNNING
    && Truthy(Json.Get(Desktop(session), "required"))
    && session.status.binding.vmRef.None?
    && session.status.phase == "PendingVM"
  }

  function VmTypeOf(session: Session): string {
    var mode := TextOf(Desktop(session), "mode");
    if mode in SUPPORTED_POOL_VM_TYPES then mode else "ubuntu"
  }

  function PlacementOf(session: Session, catalog: Catalog): PlacementResult {
    PlacementFromRef(FieldsOf(Json.Get(Desktop(session), "placement")), catalog)
  }

  /** A session waits if it is Running by its spec, wants a desktop, has no VM and is in phase PendingVM. */
  lemma WaitsMeans(session: Session)
    ensures var field, desktop := Json.Get(session.spec, "desiredState"), Json.Get(session.spec, "desktop");
            Waits(session) <==>
              && !session.terminating && (field.Text? ==> field.s == "" || field.s == "Running")
              && desktop.Object? && "required" in desktop.fields
              && desktop.fields["required"] !in {Json.Null, Json.Bool(false), Json.Number(0.0), Json.Text(""),
                  Json.List([]), Json.Object(map[])}
              && session.status.binding.vmRef == None && session.status.phase == "PendingVM"
  {
    DesiredStateMeans(session);
  }

  /** Windows where the desktop says so, Ubuntu in every other case. */
  lemma VmTypeMeans(session: Session)
    ensures var desktop := Json.Get(session.spec, "desktop");
            && (VmTypeOf(session) == "windows" <==>
                desktop.Object? && "mode" in desktop.fields && desktop.fields["mode"] == Json.Text("windows"))
            && (VmTypeOf(session) != "windows" ==> VmTypeOf(session) == "ubuntu")
  {
  }

  // ---- aggregate demand ----

  function Pending(sessions: seq<Session>, vmType: string): nat {
    if sessions == [] then 0 else
      var last := sessions[|sessions| - 1];
      Pending(sessions[..|sessions| - 1], vmType) + if Waits(last) && VmTypeOf(last) == vmType then 1 else 0
  }

  method PendingVmDemand(sessions: seq<Session>) returns (demand: map<string, nat>)
    ensures demand.Keys == {"ubuntu", "windows"} && forall vmType :: vmType in demand ==>
            demand[vmType] == Pending(sessions, vmType)
  {
    demand := map["ubuntu" := 0, "windows" := 0];
    for i := 0 to |sessions|
      invariant demand.Keys == {"ubuntu", "windows"}
      invariant forall vmType :: vmType in demand ==> demand[vmType] == Pending(sessions[..i], vmType)
    {
      assert sessions[..i + 1][..i] == sessions[..i];
      var session := sessions[i];
      if DesiredState(session) != RUNNING || !Truthy(Json.Get(Desktop(session), "required")) {
        continue;
      }
      if session.status.binding.vmRef.Some? || session.status.phase != "PendingVM" {
        continue;
      }
      var mode := TextOf(Desktop(session), "mode");
      var vmType := if mode == "" then "ubuntu" else mode;
      if vmType !in demand {
        vmType := "ubuntu";
      }
      demand := demand[vmType := demand[vmType] + 1];
    }
    assert sessions[..|sessions|] == sessions;
  }

  // ---- demand per type and placement: a dictionary, in order of insertion ----

  datatype Entry = Entry(vmType: string, placement: Option<Placement>, count: nat)

  function Bumped(demand: seq<Entry>, vmType: string, placement: Option<Placement>): seq<Entry> {
    if demand == [] then [Entry(vmType, placement, 1)]
    else if demand[0].vmType == vmType && demand[0].placement == placement
        then [demand[0].(count := demand[0].count + 1)] + demand[1..]
    else [demand[0]] + Bumped(demand[1..], vmType, placement)
  }

  datatype InvalidPlacement = InvalidPlacement(assistantId: string, error: string)

  datatype PoolDemand = PoolDemand(demand: seq<Entry>, invalid: seq<InvalidPlacement>)

  /** The demand of a list of sessions, one after the other. */
  function Demanded(sessions: seq<Session>, catalog: Catalog): PoolDemand {
    if sessions == [] then PoolDemand([], []) else
      var before, last := Demanded(sessions[..|sessions| - 1], catalog), sessions[|sessions| - 1];
      if !Waits(last) then before else
      match PlacementOf(last, catalog)
      case Placed(placement) => before.(demand := Bumped(before.demand, VmTypeOf(last), placement))
      case Invalid(error) => before.(invalid := before.invalid
          + [InvalidPlacement(TextOf(last.spec, "assistantId"), error)])
  }

  method PendingVmDemandByPool(sessions: seq<Session>, catalog: Catalog)
    returns (demand: seq<Entry>, invalid: seq<InvalidPlacement>)
    ensures PoolDemand(demand, invalid) == Demanded(sessions, catalog)
  {
    demand, invalid := [], [];
    for i := 0 to |sessions|
      invariant PoolDemand(demand, invalid) == Demanded(sessions[..i], catalog)
    {
      assert sessions[..i + 1][..i] == sessions[..i];
      var session := sessions[i];
      if DesiredState(session) != RUNNING || !Truthy(Json.Get(Desktop(session), "required")) {
        continue;
      }
      if session.status.binding.vmRef.Some? || session.status.phase != "PendingVM" {
        continue;
      }
      var mode := TextOf(Desktop(session), "mode");
      var vmType := if mode == "" then "ubuntu" else mode;
      if vmType !in SUPPORTED_POOL_VM_TYPES {
        vmType := "ubuntu";
      }
      match PlacementOf(session, catalog) {
        case Invalid(error) =>
          invalid := invalid + [InvalidPlacement(TextOf(session.spec, "assistantId"), error)];
        case Placed(placement) =>
          demand := Bumped(demand, vmType, placement);
      }
    }
    assert sessions[..|sessions|] == sessions;
  }

  /** No two entries for the same type and placement, none of them empty. */
  ghost predicate IsDictionary(demand: seq<Entry>) {
    && (forall i :: 0 <= i < |demand| ==> demand[i].count > 0 && demand[i].vmType in SUPPORTED_POOL_VM_TYPES)
    && forall i, j :: 0 <= i < j < |demand| ==>
        demand[i].vmType != demand[j].vmType || demand[i].placement != demand[j].placement
  }

  lemma {:induction false} BumpedMembers(demand: seq<Entry>, vmType: string, placement: Option<Placement>)
    ensures forall e :: e in Bumped(demand, vmType, placement) ==>
              (e.vmType == vmType && e.placement == placement)
                  || exists d :: d in demand && d.vmType == e.vmType && d.placement == e.placement
  {
    if demand != [] && !(demand[0].vmType == vmType && demand[0].placement == placement) {
      BumpedMembers(demand[1..], vmType, placement);
    }
  }

  lemma {:induction false} BumpedIsDictionary(demand: seq<Entry>, vmType: string, placement: Option<Placement>)
    requires IsDictionary(demand) && vmType in SUPPORTED_POOL_VM_TYPES
    ensures IsDictionary(Bumped(demand, vmType, placement))
  {
    if demand != [] && !(demand[0].vmType == vmType && demand[0].placement == placement) {
      var rest := Bumped(demand[1..], vmType, placement);
      BumpedIsDictionary(demand[1..], vmType, placement);
      BumpedMembers(demand[1..], vmType, placement);
      forall j | 0 <= j < |rest| ensures demand[0].vmType != rest[j].vmType
          || demand[0].placement != rest[j].placement {
        assert rest[j] in rest;
      }
    }
  }

  lemma {:induction false} DemandedIsDictionary(sessions: seq<Session>, catalog: Catalog)
    ensures IsDictionary(Demanded(sessions, catalog).demand)
  {
    if sessions != [] {
      var before, last := sessions[..|sessions| - 1], sessions[|sessions| - 1];
      DemandedIsDictionary(before, catalog);
      if Waits(last) && PlacementOf(last, catalog).Placed? {
        BumpedIsDictionary(Demanded(before, catalog).demand, VmTypeOf(last), PlacementOf(last, catalog).placement);
      }
    }
  }

  /** What a dictionary of demand says of a type and placement. */
  function CountOf(demand: seq<Entry>, vmType: string, placement: Option<Placement>): nat {
    if demand == [] then 0
    else if demand[0].vmType == vmType && demand[0].placement == placement then demand[0].count
    else CountOf(demand[1..], vmType, placement)
  }

  /** The waiting sessions of a type that name this placement, or none. */
  function WaitingAt(sessions: seq<Session>, catalog: Catalog, vmType: string, placement: Option<Placement>): nat {
    if sessions == [] then 0 else
      var last := sessions[|sessions| - 1];
      WaitingAt(sessions[..|sessions| - 1], catalog, vmType, placement)
      + if Waits(last) && VmTypeOf(last) == vmType && PlacementOf(last, catalog) == Placed(placement) then 1 else 0
  }

  lemma {:induction false} BumpedCountOf(demand: seq<Entry>, bumped: Entry, vmType: string,
      placement: Option<Placement>)
    ensures CountOf(Bumped(demand, bumped.vmType, bumped.placement), vmType, placement) ==
            CountOf(demand, vmType, placement)
            + if bumped.vmType == vmType && bumped.placement == placement then 1 else 0
  {
    if demand != [] && !(demand[0].vmType == bumped.vmType && demand[0].placement == bumped.placement) {
      BumpedCountOf(demand[1..], bumped, vmType, placement);
    }
  }

  lemma {:induction false} CountOfEntry(demand: seq<Entry>, vmType: string, placement: Option<Placement>)
    requires IsDictionary(demand)
    ensures forall i :: 0 <= i < |demand| && demand[i].vmType == vmType && demand[i].placement == placement ==>
              demand[i].count == CountOf(demand, vmType, placement)
    ensures CountOf(demand, vmType, placement) > 0 ==>
              exists i :: 0 <= i < |demand| && demand[i].vmType == vmType && demand[i].placement == placement
  {
    if demand != [] && !(demand[0].vmType == vmType && demand[0].placement == placement) {
      CountOfEntry(demand[1..], vmType, placement);
      assert forall i :: 0 < i < |demand| ==> demand[i] == demand[1..][i - 1];
    }
  }

  lemma {:induction false} DemandedCountOf(sessions: seq<Session>, catalog: Catalog, vmType: string,
      placement: Option<Placement>)
    ensures CountOf(Demanded(sessions, catalog).demand, vmType, placement) ==
            WaitingAt(sessions, catalog, vmType, placement)
  {
    if sessions != [] {
      var before, last := sessions[..|sessions| - 1], sessions[|sessions| - 1];
      DemandedCountOf(before, catalog, vmType, placement);
      if Waits(last) && PlacementOf(last, catalog).Placed? {
        BumpedCountOf(Demanded(before, catalog).demand, Entry(VmTypeOf(last), PlacementOf(last, catalog).placement, 0),
            vmType, placement);
      }
    }
  }

  /**
   * Each entry counts exactly the waiting sessions of its type that name its placement, and every such session has
   * an entry.
   */
  lemma DemandedIsExact(sessions: seq<Session>, catalog: Catalog)
    ensures var demand := Demanded(sessions, catalog).demand;
            && (forall i :: 0 <= i < |demand| ==>
                  demand[i].count == WaitingAt(sessions, catalog, demand[i].vmType, demand[i].placement))
            && forall vmType, placement :: WaitingAt(sessions, catalog, vmType, placement) > 0 ==>
                 exists i :: 0 <= i < |demand| && demand[i].vmType == vmType && demand[i].placement == placement
  {
    var demand := Demanded(sessions, catalog).demand;
    DemandedIsDictionary(sessions, catalog);
    forall i | 0 <= i < |demand|
      ensures demand[i].count == WaitingAt(sessions, catalog, demand[i].vmType, demand[i].placement)
    {
      DemandedCountOf(sessions, catalog, demand[i].vmType, demand[i].placement);
      CountOfEntry(demand, demand[i].vmType, demand[i].placement);
    }
    forall vmType, placement | WaitingAt(sessions, catalog, vmType, placement) > 0
      ensures exists i :: 0 <= i < |demand| && demand[i].vmType == vmType && demand[i].placement == placement
    {
      DemandedCountOf(sessions, catalog, vmType, placement);
      CountOfEntry(demand, vmType, placement);
    }
  }
}
