/** What each repair path checks before it may act: the action registry, the
    target in the snapshots it reads, settings, opt-ins and the safety review. */
module RepairGates {
  import opened Models
  import A = Approvals
  import L = RepairLimiter
  import Text

  // ---------------------------------------------------------------------
  // The action registry
  // ---------------------------------------------------------------------

  datatype ActionDef = ActionDef(approvalEligible: bool, requiresAppTarget: bool, executable: bool, restarts: bool)

  const RESTART_APP := "ask_admin_to_restart_container"
  const START_ARRAY := "ask_admin_to_start_array"
  const ARRAY_TARGET := "unraid_array"

  const INFORMATIONAL := ActionDef(false, false, false, false)

  /** A blank id names the registered action "unknown". */
  function Definition(id: string): Option<ActionDef> {
    var name := Text.TrimSpace(id);
    if name == RESTART_APP then Some(ActionDef(true, true, true, true))
    else if name == START_ARRAY then Some(ActionDef(false, false, true, false))
    else if name in {"", "none", "unknown", "ask_admin_to_check", "ask_admin_to_restart_unifi_device",
                     "ask_admin_to_check_unifi", "ask_admin_to_check_storage"} then Some(INFORMATIONAL)
    else None
  }

  predicate IsRegistered(id: string) {
    Definition(id).Some?
  }

  // ---------------------------------------------------------------------
  // Snapshots
  // ---------------------------------------------------------------------

  datatype Docker = Running | Exited | UnknownState

  /** names are the non-blank ones among id, container id, container name and
      display name, in Identifier's form; hasContainer: a container id or name, or
      the docker data source. */
  datatype Container = Container(id: string, names: set<string>, hasContainer: bool, docker: Docker, status: Status,
                                 blacklisted: bool, agentOptIn: bool, userOptIn: bool)

  function Identifier(s: string): string {
    var t := Text.TrimSpace(s);
    Text.ToLower(if t != "" && t[0] == '/' then t[1..] else t)
  }

  predicate Named(app: Container, name: string) {
    name != "" && name in app.names
  }

  predicate IsFirstNamed(apps: seq<Container>, name: string, i: nat) {
    i < |apps| && Named(apps[i], name) && forall j :: 0 <= j < i ==> !Named(apps[j], name)
  }

  /** The first app that goes by the name. */
  function FirstNamed(apps: seq<Container>, name: string): (r: Option<Container>)
    ensures r.Some? ==> exists i: nat :: IsFirstNamed(apps, name, i) && r.value == apps[i]
    ensures r.None? ==> forall app :: app in apps ==> !Named(app, name)
  {
    if apps == [] then None
    else if Named(apps[0], name) then
      assert IsFirstNamed(apps, name, 0);
      Some(apps[0])
    else
      var r := FirstNamed(apps[1..], name);
      assert r.Some? ==> exists i: nat :: IsFirstNamed(apps, name, i) && r.value == apps[i] by {
        if r.Some? {
          var i: nat :| IsFirstNamed(apps[1..], name, i) && r.value == apps[1..][i];
          assert IsFirstNamed(apps, name, i + 1);
        }
      }
      r
  }

  function FindApp(apps: seq<Container>, query: string): Option<Container> {
    FirstNamed(apps, Identifier(query))
  }

  predicate IsDockerTarget(app: Container) {
    app.hasContainer || app.docker != UnknownState
  }

  // ---------------------------------------------------------------------
  // Paths
  // ---------------------------------------------------------------------

  datatype Operation = StartApp | StopApp | RestartApp | StartTheArray | RestartTheDevice

  /** What a caller asks for. The direct admin control of an app is not limited and
      is not listed. */
  datatype Request =
    | Approval(payload: A.Payload, actor: string, choice: string)
    | AutoFix(actionId: string, targetId: string)
    | UserControl(appId: string, operation: Operation)
    | Decision(requestId: string, actionId: string, appId: string)
    | ArrayStart(payload: A.Payload, actor: string, choice: string)
    | DeviceRestart(deviceId: string)

  predicate NeedsToken(r: Request) {
    r.Approval? || r.ArrayStart?
  }

  /** What a handler reads before it acts: settings, the snapshot its user may see
      and the full one, the array's state, and the safety review's verdict. */
  datatype Facts = Facts(
    controlEnabled: bool,
    autoReviewEnabled: bool,
    roleAllowed: bool,
    visible: seq<Container>,
    apps: seq<Container>,
    apiReachable: bool,
    arrayState: string,
    reviewAllows: bool)

  predicate ReviewPasses(f: Facts) {
    f.autoReviewEnabled ==> f.reviewAllows
  }

  predicate ArrayStopped(f: Facts) {
    f.apiReachable && Text.NormalId(f.arrayState) in {"stopped", "offline", "off", "down"}
  }

  /** The action to send, under the limiter key it is counted by. */
  datatype Order = Order(operation: Operation, key: string)

  /** A restart recommendation starts an app that has exited. */
  function Repair(app: Container): Operation {
    if app.docker == Exited then StartApp else RestartApp
  }

  /** The gates the admin approval, the automatic fix and the repair request share. */
  function AgentOrder(query: string, f: Facts): Option<Order> {
    var app := FindApp(f.apps, query);
    if !f.controlEnabled || app.None? || app.value.blacklisted || !app.value.agentOptIn || !ReviewPasses(f) then None
    else Some(Order(Repair(app.value), L.KeyOf(app.value.id)))
  }

  predicate RestartsApp(actionId: string) {
    var def := Definition(actionId);
    def.Some? && def.value.executable && def.value.restarts
  }

  predicate StateAllows(operation: Operation, app: Container) {
    var status := StatusOrUnknown(app.status);
    match operation
    case StartApp => app.docker != Running && status != Online && status != Degraded
    case StopApp => app.docker != Exited && !(status == Offline && app.docker != Running)
    case RestartApp => true
    case _ => false
  }

  function UserOrder(appId: string, operation: Operation, f: Facts): Option<Order> {
    var seen := FindApp(f.visible, appId);
    if Text.TrimSpace(appId) == "" || operation !in {StartApp, StopApp, RestartApp} || seen.None? || !seen.value.userOptIn then None
    else
      var found := FindApp(f.apps, seen.value.id);
      if found.None? then None
      else
        var app := found.value;
        var wanted := if operation == RestartApp then Repair(app) else operation;
        if IsDockerTarget(app) && !app.blacklisted && app.userOptIn && StateAllows(wanted, app) && ReviewPasses(f)
        then Some(Order(wanted, L.KeyOf(app.id))) else None
  }

  /** What a request may send, given what its handler reads. Token verification has
      come before, consumption and the limiter come after. */
  function Permitted(r: Request, f: Facts): Option<Order> {
    match r
    case Approval(p, _, choice) =>
      var def := Definition(p.actionId);
      if def.None? || !def.value.approvalEligible then None
      else if def.value.requiresAppTarget && (p.targetKind != "app" || Text.TrimSpace(p.targetId) == "") then None
      else if Text.TrimSpace(choice) != "allow_once" || !RestartsApp(p.actionId) || !A.HasNonce(p) then None
      else AgentOrder(p.targetId, f)
    case AutoFix(actionId, targetId) =>
      var app := FindApp(f.apps, targetId);
      if !f.autoReviewEnabled || !RestartsApp(actionId) || app.None? || StatusOrUnknown(app.value.status) == Online then None
      else AgentOrder(targetId, f)
    case UserControl(appId, operation) => UserOrder(appId, operation, f)
    case Decision(_, actionId, appId) => if RestartsApp(actionId) then AgentOrder(appId, f) else None
    case ArrayStart(p, _, choice) =>
      if Text.TrimSpace(choice) == "start_array" && p.actionId == START_ARRAY && p.targetKind == "storage" && p.targetId == ARRAY_TARGET
         && A.HasNonce(p) && f.roleAllowed && ArrayStopped(f)
      then Some(Order(StartTheArray, L.KeyOf(ARRAY_TARGET))) else None
    case DeviceRestart(deviceId) =>
      if deviceId == "" then None else Some(Order(RestartTheDevice, L.KeyOf("unifi:" + deviceId)))
  }

  /** What names the app: the token, the plan, the request, or the app that the user
      names among those the user may see. */
  function QueryOf(r: Request, f: Facts): string {
    match r
    case Approval(p, _, _) => p.targetId
    case AutoFix(_, targetId) => targetId
    case UserControl(appId, _) =>
      var seen := FindApp(f.visible, appId);
      if seen.Some? then seen.value.id else ""
    case Decision(_, _, appId) => appId
    case _ => ""
  }

  /** What it takes of an app that an operation is sent to. */
  ghost predicate AppAgrees(app: Container, r: Request, f: Facts, order: Order) {
    && FindApp(f.apps, QueryOf(r, f)) == Some(app) && order.key == L.KeyOf(app.id) && !app.blacklisted && ReviewPasses(f)
    && (order.operation == RestartApp ==> app.docker != Exited)
    && (if r.UserControl? then app.userOptIn && IsDockerTarget(app) && StateAllows(order.operation, app)
        else app.agentOptIn && f.controlEnabled && order.operation == (if app.docker == Exited then StartApp else RestartApp))
    && (r.AutoFix? ==> StatusOrUnknown(app.status) != Online && f.reviewAllows)
  }

  lemma AgentOrderMeans(query: string, f: Facts) returns (app: Container)
    requires AgentOrder(query, f).Some?
    ensures AgentOrder(query, f) == Some(Order(Repair(app), L.KeyOf(app.id)))
    ensures !app.blacklisted && app.agentOptIn && f.controlEnabled && ReviewPasses(f) && FindApp(f.apps, query) == Some(app)
  {
    app := FindApp(f.apps, query).value;
  }

  predicate OnApp(operation: Operation) {
    operation in {StartApp, StopApp, RestartApp}
  }

  /** Nothing is permitted but to the app named, and not if that has not opted in to
      the path's actor, is blacklisted or fails an enabled review; only a user stops
      an app, and only one that is not stopped; nobody restarts an exited app, and no
      agent starts another; only a stopped array is started, and only by that
      action's token. */
  lemma PermissionMeans(r: Request, f: Facts)
    requires Permitted(r, f).Some?
    ensures var order := Permitted(r, f).value;
      && (OnApp(order.operation) <==> !r.ArrayStart? && !r.DeviceRestart?)
      && (OnApp(order.operation) ==> exists app :: AppAgrees(app, r, f, order))
      && (order.operation == StopApp ==> r.UserControl?)
      && (order.operation == StartTheArray ==> r.ArrayStart? && ArrayStopped(f) && f.roleAllowed && r.payload.actionId == START_ARRAY)
      && (NeedsToken(r) ==> A.HasNonce(r.payload) && IsRegistered(r.payload.actionId))
  {
    var order := Permitted(r, f).value;
    match r
    case Approval(p, _, _) =>
      var app := AgentOrderMeans(p.targetId, f);
      assert AppAgrees(app, r, f, order);
    case AutoFix(_, targetId) =>
      var app := AgentOrderMeans(targetId, f);
      assert AppAgrees(app, r, f, order);
    case Decision(_, _, appId) =>
      var app := AgentOrderMeans(appId, f);
      assert AppAgrees(app, r, f, order);
    case UserControl(appId, _) =>
      var app := FindApp(f.apps, FindApp(f.visible, appId).value.id).value;
      assert AppAgrees(app, r, f, order);
    case ArrayStart(p, _, _) =>
      Text.TrimmedIsFixed(START_ARRAY);
    case DeviceRestart(_) =>
  }

  // ---------------------------------------------------------------------
  // Exactly what each path lets through
  // ---------------------------------------------------------------------

  /** A user's wish for an app, and what is sent for it: a restart of an app that has
      exited becomes a start; nothing that counts as running is started, nothing that
      counts as stopped is stopped. */
  ghost predicate UserMaySend(wish: Operation, app: Container, sent: Operation) {
    var runs := app.docker == Running || app.status == Online || app.status == Degraded;
    match wish
    case StartApp => sent == StartApp && !runs
    case StopApp => sent == StopApp && app.docker != Exited && (app.status == Offline ==> app.docker == Running)
    case RestartApp => if app.docker == Exited then sent == StartApp && !runs else sent == RestartApp
    case _ => false
  }

  /** The gates of the paths that act for an admin or on their own, on the app named, and
      the one operation they lead to. */
  ghost predicate AgentMaySend(query: string, f: Facts, order: Order) {
    exists app :: FindApp(f.apps, query) == Some(app)
      && f.controlEnabled && !app.blacklisted && app.agentOptIn && (f.autoReviewEnabled ==> f.reviewAllows)
      && order.operation == (if app.docker == Exited then StartApp else RestartApp) && order.key == L.KeyOf(app.id)
  }

  ghost predicate UserOrdered(appId: string, wish: Operation, f: Facts, order: Order) {
    exists seen, app :: FindApp(f.visible, appId) == Some(seen) && FindApp(f.apps, seen.id) == Some(app)
      && seen.userOptIn && app.userOptIn && !app.blacklisted && (app.hasContainer || app.docker != UnknownState)
      && (f.autoReviewEnabled ==> f.reviewAllows)
      && UserMaySend(wish, app, order.operation) && order.key == L.KeyOf(app.id)
  }

  /** What a path's request and the facts must be for the order to be sent. */
  ghost predicate MayBeSent(r: Request, f: Facts, order: Order) {
    match r
    case Approval(p, _, choice) =>
      && Text.TrimSpace(p.actionId) == RESTART_APP && p.targetKind == "app" && Text.TrimSpace(p.targetId) != ""
      && Text.TrimSpace(choice) == "allow_once" && Text.TrimSpace(p.nonce) != "" && AgentMaySend(p.targetId, f, order)
    case AutoFix(actionId, targetId) =>
      && f.autoReviewEnabled && Text.TrimSpace(actionId) == RESTART_APP && AgentMaySend(targetId, f, order)
      && !(exists app :: FindApp(f.apps, targetId) == Some(app) && app.status == Online)
    case UserControl(appId, wish) => Text.TrimSpace(appId) != "" && UserOrdered(appId, wish, f, order)
    case Decision(_, actionId, appId) => Text.TrimSpace(actionId) == RESTART_APP && AgentMaySend(appId, f, order)
    case ArrayStart(p, _, choice) =>
      && p.actionId == START_ARRAY && p.targetKind == "storage" && p.targetId == ARRAY_TARGET
      && Text.TrimSpace(choice) == "start_array" && Text.TrimSpace(p.nonce) != ""
      && f.roleAllowed && f.apiReachable && Text.NormalId(f.arrayState) in {"stopped", "offline", "off", "down"}
      && order == Order(StartTheArray, L.KeyOf(ARRAY_TARGET))
    case DeviceRestart(deviceId) => deviceId != "" && order == Order(RestartTheDevice, L.KeyOf("unifi:" + deviceId))
  }

  lemma RestartsExactly(actionId: string)
    ensures RestartsApp(actionId) <==> Text.TrimSpace(actionId) == RESTART_APP
    ensures Text.TrimSpace(actionId) == RESTART_APP ==>
      Definition(actionId).Some? && Definition(actionId).value.approvalEligible && Definition(actionId).value.requiresAppTarget
  {
  }

  lemma AgentOrderExactly(query: string, f: Facts, order: Order)
    ensures AgentOrder(query, f) == Some(order) <==> AgentMaySend(query, f, order)
  {
    if AgentOrder(query, f) == Some(order) {
      var app := AgentOrderMeans(query, f);
    }
  }

  lemma UserOrderExactly(appId: string, wish: Operation, f: Facts, order: Order)
    ensures UserOrder(appId, wish, f) == Some(order) <==> Text.TrimSpace(appId) != "" && UserOrdered(appId, wish, f, order)
  {
    if UserOrder(appId, wish, f) == Some(order) {
      var seen := FindApp(f.visible, appId).value;
      var app := FindApp(f.apps, seen.id).value;
      assert UserMaySend(wish, app, order.operation);
    }
  }

  /** An order is permitted if and only if it may be sent: both directions, on every
      path. */
  lemma PermittedExactly(r: Request, f: Facts, order: Order)
    ensures Permitted(r, f) == Some(order) <==> MayBeSent(r, f, order)
  {
    match r
    case Approval(p, _, _) =>
      RestartsExactly(p.actionId);
      AgentOrderExactly(p.targetId, f, order);
    case AutoFix(actionId, targetId) =>
      RestartsExactly(actionId);
      AgentOrderExactly(targetId, f, order);
    case UserControl(appId, wish) => UserOrderExactly(appId, wish, f, order);
    case Decision(_, actionId, appId) =>
      RestartsExactly(actionId);
      AgentOrderExactly(appId, f, order);
    case ArrayStart(_, _, _) =>
    case DeviceRestart(_) =>
  }

  /** How apps are named: surrounding blanks, one leading slash and letter case do not
      matter, and nothing else is dropped. */
  lemma NamesMean(a: string, b: string)
    requires Text.Trimmed(a) && Text.Trimmed(b) && (a != "" ==> a[0] != '/') && (b != "" ==> b[0] != '/')
    ensures Identifier(a) == Identifier(b) <==> Text.EqualFold(a, b)
    ensures Identifier("/" + a) == Identifier(a)
  {
    Text.TrimmedIsFixed(a);
    Text.TrimmedIsFixed(b);
    Text.TrimmedIsFixed("/" + a);
    assert ("/" + a)[1..] == a;
  }
}
