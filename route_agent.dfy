/** The route and logistics agent: `validate_shipping_route` judges a bill
    of lading's routing against the vessel's regular routes, and
    `check_port_consistency` compares the supplier's city with the port of
    loading. */
module RouteAgent {
  import opened Wrappers
  import opened Seqs
  import opened Text
  import opened Documents
  import opened Levels

  /** One of a vessel's regular routes. Absent port names read as "", an
      absent `direct` flag as false. */
  datatype TypicalRoute = TypicalRoute(origin: string, destination: string, direct: Option<Value>)

  /** A vessel schedule entry: an empty JSON object, or an object whose
      `regular_routes` (absent reads as empty) the rule scans. */
  datatype Vessel = EmptyEntry | Schedule(regularRoutes: seq<TypicalRoute>)

  predicate IsText(v: Option<Value>) {
    v.Some? && v.value.Str?
  }

  /** `origin_port in route["origin"] and dest_port in route["destination"]`
      for text ports: both are substrings. */
  predicate RouteServes(route: TypicalRoute, originPort: Option<Value>, destPort: Option<Value>) {
    && IsText(originPort) && IsText(destPort)
    && Contains(route.origin, originPort.value.s)
    && Contains(route.destination, destPort.value.s)
  }

  /** The substring test raises a TypeError for a port that is not text:
      the origin is compared with every route, the destination only where
      the origin matched. */
  predicate ScanFails(routes: seq<TypicalRoute>, originPort: Option<Value>, destPort: Option<Value>) {
    || (|routes| > 0 && !IsText(originPort))
    || (IsText(originPort) && !IsText(destPort)
        && exists i :: 0 <= i < |routes| && Contains(routes[i].origin, originPort.value.s))
  }

  datatype ScanError = PortNotText

  /** What the scan of the regular routes learns. */
  datatype RouteScan = RouteScan(routeMatch: bool, directAvailable: bool)

  /** The scan's outcome, stated over all routes at once. */
  function ScanOf(routes: seq<TypicalRoute>, originPort: Option<Value>, destPort: Option<Value>): Result<RouteScan, ScanError> {
    if ScanFails(routes, originPort, destPort) then Failure(PortNotText)
    else Success(RouteScan(
      exists i :: 0 <= i < |routes| && RouteServes(routes[i], originPort, destPort),
      exists i :: 0 <= i < |routes| && RouteServes(routes[i], originPort, destPort) && Truthy(routes[i].direct)))
  }

  /** The loop over the regular routes, which raises at the first test of a
      port that is not text. */
  method ScanRoutes(routes: seq<TypicalRoute>, originPort: Option<Value>, destPort: Option<Value>) returns (r: Result<RouteScan, ScanError>)
    ensures r == ScanOf(routes, originPort, destPort)
  {
    var routeMatch, directAvailable := false, false;
    for i := 0 to |routes|
      invariant i > 0 ==> IsText(originPort)
      invariant IsText(originPort) && !IsText(destPort) ==> forall j :: 0 <= j < i ==> !Contains(routes[j].origin, originPort.value.s)
      invariant routeMatch <==> exists j :: 0 <= j < i && RouteServes(routes[j], originPort, destPort)
      invariant directAvailable <==> exists j :: 0 <= j < i && RouteServes(routes[j], originPort, destPort) && Truthy(routes[j].direct)
    {
      if !IsText(originPort) {
        return Failure(PortNotText);
      }
      if Contains(routes[i].origin, originPort.value.s) {
        if !IsText(destPort) {
          return Failure(PortNotText);
        }
        if Contains(routes[i].destination, destPort.value.s) {
          routeMatch := true;
          if Truthy(routes[i].direct) {
            directAvailable := true;
          }
        }
      }
    }
    r := Success(RouteScan(routeMatch, directAvailable));
  }

  /** `routing[1:-1]`: the ports between the first and the last. */
  function TransshipmentPoints(routing: seq<string>): (points: seq<string>)
    ensures |routing| >= 2 ==> points == routing[1..|routing| - 1]
    ensures |routing| < 2 ==> points == []
  {
    if |routing| < 2 then [] else routing[1..|routing| - 1]
  }

  datatype RouteVerdict = DirectRoute | UnnecessaryTransshipment(points: seq<string>) | UnusualRouting

  /** The verdict the rule draws from the scan and the routing's length. */
  function ClassifyRoute(scan: RouteScan, routing: seq<string>): RouteVerdict {
    var isDirect := |routing| == 2;
    if scan.routeMatch && isDirect then DirectRoute
    else if scan.routeMatch && !isDirect && scan.directAvailable then UnnecessaryTransshipment(TransshipmentPoints(routing))
    else UnusualRouting
  }

  /** The answer of `validate_shipping_route`. */
  datatype RouteCheck =
    | RouteFetchFailed(error: DocumentError)
    | NotBillOfLading(bolId: string)
    | RouteTypeError
    | VesselUnknown(vessel: Option<Value>)
    | RouteChecked(verdict: RouteVerdict, vessel: Option<Value>, route: seq<string>)
  {
    function Risk(): Option<Level> {
      match this
      case VesselUnknown(_) => Some(Medium)
      case RouteChecked(DirectRoute, _, _) => Some(Low)
      case RouteChecked(UnnecessaryTransshipment(_), _, _) => Some(High)
      case RouteChecked(UnusualRouting, _, _) => Some(Medium)
      case _ => None
    }
  }

  /** `bol.get("routing", [])`. */
  function RoutingOf(bol: Record): (r: seq<string>)
    ensures Get(bol, "routing").Some? && Get(bol, "routing").value.StrList? ==> r == Get(bol, "routing").value.items
    ensures !(Get(bol, "routing").Some? && Get(bol, "routing").value.StrList?) ==> r == []
  {
    match Get(bol, "routing")
    case Some(StrList(xs)) => xs
    case _ => []
  }

  /** `vessel_schedules.get(vessel_name)`, where an empty entry is no data
      and a list-valued name cannot be hashed. */
  function VesselFor(vessels: map<string, Vessel>, name: Option<Value>): (r: Result<Option<seq<TypicalRoute>>, ScanError>)
    ensures r.Failure? <==> name.Some? && name.value.StrList?
    ensures r.Success? && r.value.Some? <==> name.Some? && name.value.Str? && name.value.s in vessels && vessels[name.value.s].Schedule?
    ensures r.Success? && r.value.Some? ==> r.value.value == vessels[name.value.s].regularRoutes
  {
    match name
    case Some(StrList(_)) => Failure(PortNotText)
    case Some(Str(n)) => if n in vessels && vessels[n].Schedule? then Success(Some(vessels[n].regularRoutes)) else Success(None)
    case _ => Success(None)
  }

  /** The whole rule, as one function of the documents and the schedules. */
  function RouteCheckOf(docs: Table<Record>, vessels: map<string, Vessel>, bolId: string): RouteCheck {
    match FetchDocument(docs, bolId)
    case Failure(e) => RouteFetchFailed(e)
    case Success(bol) =>
      if !HasType(bol, "bill_of_lading") then NotBillOfLading(bolId)
      else
        var name := Get(bol, "vessel");
        match VesselFor(vessels, name)
        case Failure(_) => RouteTypeError
        case Success(None) => VesselUnknown(name)
        case Success(Some(routes)) =>
          match ScanOf(routes, Get(bol, "origin_port"), Get(bol, "destination_port"))
          case Failure(_) => RouteTypeError
          case Success(scan) => RouteChecked(ClassifyRoute(scan, RoutingOf(bol)), name, RoutingOf(bol))
  }

  /** `validate_shipping_route`. */
  method ValidateShippingRoute(docs: Table<Record>, vessels: map<string, Vessel>, bolId: string) returns (r: RouteCheck)
    ensures r == RouteCheckOf(docs, vessels, bolId)
  {
    var fetched := FetchDocument(docs, bolId);
    if fetched.Failure? {
      return RouteFetchFailed(fetched.error);
    }
    var bol := fetched.value;
    if Get(bol, "type") != Some(Str("bill_of_lading")) {
      return NotBillOfLading(bolId);
    }
    var vesselName := Get(bol, "vessel");
    var originPort := Get(bol, "origin_port");
    var destPort := Get(bol, "destination_port");
    var routing := RoutingOf(bol);
    var vessel := VesselFor(vessels, vesselName);
    if vessel.Failure? {
      return RouteTypeError;
    }
    if vessel.value.None? {
      return VesselUnknown(vesselName);
    }
    var scan := ScanRoutes(vessel.value.value, originPort, destPort);
    if scan.Failure? {
      return RouteTypeError;
    }
    r := RouteChecked(ClassifyRoute(scan.value, routing), vesselName, routing);
  }

  /** The verdicts: a route the vessel serves with a two-port routing is
      valid; a longer or shorter routing where the vessel also offers a
      direct service between the ports is an unnecessary transshipment
      through the inner ports; everything else is unusual. */
  lemma RouteVerdicts(routes: seq<TypicalRoute>, originPort: Option<Value>, destPort: Option<Value>, routing: seq<string>)
    requires ScanOf(routes, originPort, destPort).Success?
    ensures var v := ClassifyRoute(ScanOf(routes, originPort, destPort).value, routing);
      && (v == DirectRoute <==> |routing| == 2 && exists i :: 0 <= i < |routes| && RouteServes(routes[i], originPort, destPort))
      && (v.UnnecessaryTransshipment? <==>
            |routing| != 2 && exists i :: 0 <= i < |routes| && RouteServes(routes[i], originPort, destPort) && Truthy(routes[i].direct))
      && (v.UnnecessaryTransshipment? ==> v.points == TransshipmentPoints(routing))
      && (v == UnusualRouting <==>
            || (forall i :: 0 <= i < |routes| ==> !RouteServes(routes[i], originPort, destPort))
            || (|routing| != 2 && forall i :: 0 <= i < |routes| && RouteServes(routes[i], originPort, destPort) ==> !Truthy(routes[i].direct)))
  {
  }

  /** A vessel with no regular routes never flags a routing as suspicious
      nor as valid. */
  lemma NoRoutesIsUnusual(originPort: Option<Value>, destPort: Option<Value>, routing: seq<string>)
    ensures ScanOf([], originPort, destPort).Success?
    ensures ClassifyRoute(ScanOf([], originPort, destPort).value, routing) == UnusualRouting
  {
  }

  /** A finding of unnecessary transshipment always names a regular direct
      route between the bill's ports, and the whole rule's risk follows the
      verdict. */
  lemma TransshipmentNeedsDirectService(docs: Table<Record>, vessels: map<string, Vessel>, bolId: string)
    requires RouteCheckOf(docs, vessels, bolId).RouteChecked?
    requires RouteCheckOf(docs, vessels, bolId).verdict.UnnecessaryTransshipment?
    ensures var bol := FetchDocument(docs, bolId).value;
            var routes := VesselFor(vessels, Get(bol, "vessel")).value.value;
            exists i :: 0 <= i < |routes| && RouteServes(routes[i], Get(bol, "origin_port"), Get(bol, "destination_port")) && Truthy(routes[i].direct)
    ensures RouteCheckOf(docs, vessels, bolId).Risk() == Some(High)
  {
  }

  // ---------------------------------------------------------------------
  // Port consistency

  /** The city an invoice names: the text before the first comma of its
      supplier address, stripped, when the address holds a comma. */
  function InvoiceCity(doc: Record): (r: Option<string>)
    ensures r.Some? <==> HasType(doc, "invoice") && GetText(doc, "supplier_address").Some? && ',' in GetText(doc, "supplier_address").value
    ensures r.Some? ==> r.value == Strip(FirstSegment(GetText(doc, "supplier_address").value))
  {
    if !HasType(doc, "invoice") then None
    else
      var addr := GetText(doc, "supplier_address").GetOr("");
      if ',' in addr then Some(Strip(FirstSegment(addr))) else None
  }

  function CityOf(e: (string, Record)): Option<string> {
    InvoiceCity(e.1)
  }

  /** The supplier city after the loop: the last invoice that names one
      wins. */
  function LastCity(docs: Table<Record>): Option<string> {
    LastSome(docs, CityOf)
  }

  /** Whether a document is a bill of lading, and then its origin port. */
  function BolPort(e: (string, Record)): Option<Option<Value>> {
    if HasType(e.1, "bill_of_lading") then Some(Get(e.1, "origin_port")) else None
  }

  /** The origin port after the loop: that of the last bill of lading, even
      when it has none. */
  function LastBolPort(docs: Table<Record>): Option<Value> {
    match LastSome(docs, BolPort)
    case Some(p) => p
    case None => None
  }

  /** The ports a supplier in the city may ship from; a city outside the
      table may only use a port of its own name. */
  function ExpectedPorts(city: string): (ports: seq<string>)
    ensures city in ports
    ensures city !in {"Shenzhen", "Beijing", "Guangzhou", "Shanghai"} ==> ports == [city]
  {
    if city == "Shenzhen" then ["Shenzhen", "Hong Kong", "Guangzhou"]
    else if city == "Beijing" then ["Beijing", "Tianjin"]
    else if city == "Guangzhou" then ["Guangzhou", "Shenzhen", "Hong Kong"]
    else if city == "Shanghai" then ["Shanghai"]
    else [city]
  }

  /** The answer of `check_port_consistency`. */
  datatype PortCheck =
    | PortNoDocuments(shipmentId: string)
    | MissingLocation
    | PortsConsistent(supplierCity: string, originPort: Value)
    | PortsInconsistent(supplierCity: string, originPort: Value, expectedPorts: seq<string>)

  /** The rule as one function of the documents. */
  function PortCheckOf(docs: Table<Record>, shipmentId: string): PortCheck {
    var sd := ShipmentDocuments(docs, shipmentId);
    if sd == [] then PortNoDocuments(shipmentId)
    else
      var city, port := LastCity(sd), LastBolPort(sd);
      if city.None? || city.value == "" || !Truthy(port) then MissingLocation
      else
        var expected := ExpectedPorts(city.value);
        if port.value.Str? && port.value.s in expected then PortsConsistent(city.value, port.value)
        else PortsInconsistent(city.value, port.value, expected)
  }

  /** `check_port_consistency`: two passes over the shipment's documents,
      then the port table. */
  method CheckPortConsistency(docs: Table<Record>, shipmentId: string) returns (r: PortCheck)
    ensures r == PortCheckOf(docs, shipmentId)
  {
    var sd := ShipmentDocuments(docs, shipmentId);
    if sd == [] {
      return PortNoDocuments(shipmentId);
    }
    var supplierCity := FindSupplierCity(sd);
    var originPort := FindOriginPort(sd);
    if supplierCity.None? || supplierCity.value == "" || !Truthy(originPort) {
      return MissingLocation;
    }
    var expected := ExpectedPorts(supplierCity.value);
    if originPort.value.Str? && originPort.value.s in expected {
      r := PortsConsistent(supplierCity.value, originPort.value);
    } else {
      r := PortsInconsistent(supplierCity.value, originPort.value, expected);
    }
  }

  /** The first pass: the city of the last invoice whose supplier address
      holds a comma. */
  method FindSupplierCity(sd: Table<Record>) returns (supplierCity: Option<string>)
    ensures supplierCity == LastCity(sd)
  {
    supplierCity := None;
    for i := 0 to |sd|
      invariant supplierCity == LastCity(sd[..i])
    {
      var doc := sd[i].1;
      if Get(doc, "type") == Some(Str("invoice")) {
        var addr := GetText(doc, "supplier_address").GetOr("");
        if ',' in addr {
          supplierCity := Some(Strip(FirstSegment(addr)));
        }
      }
      assert CityOf(sd[i]) == InvoiceCity(doc);
      LastSomeStep(sd, i, CityOf);
    }
    assert sd[..|sd|] == sd;
  }

  /** The second pass: the origin port of the last bill of lading. */
  method FindOriginPort(sd: Table<Record>) returns (originPort: Option<Value>)
    ensures originPort == LastBolPort(sd)
  {
    originPort := None;
    for i := 0 to |sd|
      invariant originPort == LastBolPort(sd[..i])
    {
      var doc := sd[i].1;
      if Get(doc, "type") == Some(Str("bill_of_lading")) {
        originPort := Get(doc, "origin_port");
      }
      LastSomeStep(sd, i, BolPort);
    }
    assert sd[..|sd|] == sd;
  }

  /** A shipment loaded at a port named like the supplier's city is always
      consistent, whatever the table says about that city. */
  lemma HomePortIsConsistent(docs: Table<Record>, shipmentId: string)
    requires var sd := ShipmentDocuments(docs, shipmentId);
      && LastCity(sd).Some? && LastCity(sd).value != ""
      && LastBolPort(sd) == Some(Str(LastCity(sd).value))
    ensures PortCheckOf(docs, shipmentId).PortsConsistent?
  {
    var sd := ShipmentDocuments(docs, shipmentId);
    var city, port := LastCity(sd).value, LastBolPort(sd);
    assert sd != [];
    assert Truthy(port) && port.value == Str(city);
    assert city in ExpectedPorts(city);
  }

  /** Consistency is membership of the port in the city's expected ports;
      a port that is not text is never consistent. */
  lemma PortVerdicts(docs: Table<Record>, shipmentId: string)
    ensures var sd := ShipmentDocuments(docs, shipmentId);
            var r := PortCheckOf(docs, shipmentId);
            && (r.PortsConsistent? <==>
                  && sd != [] && LastCity(sd).Some? && LastCity(sd).value != ""
                  && LastBolPort(sd).Some? && LastBolPort(sd).value.Str?
                  && LastBolPort(sd).value.s != "" && LastBolPort(sd).value.s in ExpectedPorts(LastCity(sd).value))
            && (r.PortsInconsistent? ==> r.expectedPorts == ExpectedPorts(r.supplierCity) && r.supplierCity != "")
  {
  }

  /** A supplier may ship from a port of another city's name only where the
      table lists that pair. */
  lemma CrossCityPorts(city: string, port: string)
    requires port != city
    ensures port in ExpectedPorts(city) <==>
              || (city == "Shenzhen" && (port == "Hong Kong" || port == "Guangzhou"))
              || (city == "Beijing" && port == "Tianjin")
              || (city == "Guangzhou" && (port == "Shenzhen" || port == "Hong Kong"))
  {
  }

  /** Two cities accept each other's port only for Shenzhen and Guangzhou;
      every other listed pair, such as Beijing's use of Tianjin, goes one
      way only. */
  lemma MutualPortsIff(a: string, b: string)
    requires a != b
    ensures (b in ExpectedPorts(a) && a in ExpectedPorts(b)) <==>
              (a == "Shenzhen" && b == "Guangzhou") || (a == "Guangzhou" && b == "Shenzhen")
  {
    CrossCityPorts(a, b);
    CrossCityPorts(b, a);
  }
}
