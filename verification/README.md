# Verified models of the control-plane server's core logic

This project models, in Dafny, the parts of the server (`server/internal`) whose
correctness is more than one function deep, and proves what they promise. The modules
follow the server's packages.

- **Compose stacks** (`ComposeModel`, `DependencyOrder`, `TopoSort`, `Ports`,
  `ProjectNames`, `ServiceSettings`, `StackPlan`, `PlanTexts`, `StackDeploy`,
  `StackOutcome`): from a decoded Compose model to a plan and its deployment. The planner's order is defined without the algorithm, as the
  lexicographically smallest topological permutation, and Kahn's algorithm is proved to
  find it or to fail exactly on a cycle. `PlanTexts` says what the entries of a service mean
  in its plan. Deployment is a script of daemon calls, any of
  which may be refused.
- **Permissions** (`Authz`, `Rbac`, `RbacEffects`, `RbacServer`): hierarchical wildcards over dotted
  names, scopes, scoped API tokens, and the role and binding administration as steps over
  the store, with an induction over runs and the exact effect of every step on what
  everybody may do.
- **Alarms** (`Alarms`, `AlarmEngine`, `AlarmLife`, `AlarmRuns`, `AlarmReadings`,
  `AlarmSaves`): the evaluation pass, the engine with its table and restarts, the life cycle
  of a single alarm, the proof that every engine run is such a life cycle at every key, and
  what that means for the readings themselves.
- **Guacamole protocol** (`Guac`, `GuacConn`): the instruction printer, the stream parser
  and the connection handshake of the Guacamole protocol ("Design" and "Handshake phase"
  of its protocol chapter), over sequences of code points.
- **Live stats streams** (`Streams`) and **policy schedulers** (`Scheduler`): registries
  that hand out and cancel handles, characterized by the history of calls alone.
- **Backups** (`BackupKeys`, `Backups`, `BackupRecords`, `BackupEngine`): backup, delete and
  prune over rows and stored objects, with every call they make allowed to fail, and what is
  on record in terms of the backups that were asked for.
- **Costs** (`Costs`, `Rightsizing`, `Recommendations`, `RecommendationLaws`, `Rollup`, with
  `Sorting`): prices,
  utilization, recommendations and the cost overview, over real numbers.

`Strings` and `Wrappers` hold the text functions and the option and result types the rest
relies on. Code that works by changing variables or fields is a method or a class proved
against a specification function; the theorems are lemmas about those functions. Calls
into the Docker daemon, the SQL store, storage backends and providers are represented by
arbitrary outcomes passed as parameters.

Behaviour worth knowing, each with a lemma:

- An owner grant such as `vm.*` together with a token scope `vm.power` keeps nothing, so a
  scoped token is not always the intersection of its owner's rights and its scopes
  (`Authz.TokenIsIntersection` says exactly when it is, `Authz.WildcardOwnerLoses` shows
  the loss).
- A stack can be completely in place and still be reported as partial, when only the last
  call is refused: if the last service's list of networks ends with one listed before or
  with "default", or if it declares none and shares its container name with an earlier
  service that does
  (`StackOutcome.RunningExactlyWhenDeployed` gives the exact condition,
  `StackOutcome.RepeatedNetwork`, `DefaultNetwork` and `SharedContainerName` the cases).
- When the store fails to answer whether a user is an administrator, the protection of the
  last administrator binding is skipped (`Rbac.AdminStep`, `Rbac.FailedLookupLosesAdmin`).
- Saving the active alarms is best-effort, so a restart after a failed save can bring a
  healed alarm back (`AlarmSaves.RestartsContained`, `AlarmSaves.StaleSaveRevives`).
- Starting the backup engine schedules no policy registered before; only an upsert does
  (`Scheduler.ScheduledExactly`, `Scheduler.RestartSchedulesNothing`).
- A completed backup is without its manifest or disk exactly when some deletion removed one
  of them and could not remove the row (`Backups.CompletedStaysRestorable`,
  `Backups.RowOutlivesArtifacts`). One backup's prefix covers another VM's backup exactly when
  its VM id and second, as path elements, begin the other VM's id, which takes a slash in
  that id (`BackupKeys.CoversExactly`, `OnlyOwnCovered`), and a deletion then takes the
  other backup's artifacts along (`Backups.FullDeletionSparesExactly`). Runs are admissible
  when no new backup clashes in this way with one on record.
- The documentation of `readRunes` speaks of exactly n runes; a negative length reads as an
  empty element (`GuacConn.Conn.ReadRunes`).
- A comment of `Recommend` speaks of rounding to the nearest half GiB; the code rounds up
  (`RecommendationLaws.MemShrinksExactly`).

## Model

| member | source | states |
|---|---|---|
| ComposeModel.Validate | server/internal/compose/parse.go:347-365 | accepts a model exactly when every service has an image, a legal container name if any, and depends only on known services other than itself; otherwise names a service that breaks one of these |
| ComposeModel.NameSpelled | server/internal/compose/parse.go:398-413 | a container name is legal exactly when it is a letter or digit followed by up to 254 letters, digits, underscores, dots and dashes |
| ComposeModel.ServiceNamesSorted | server/internal/compose/parse.go:369-376 | every service name once, in ascending order |
| TopoSort.TopoSort | server/internal/compose/plan.go:147-197 | on success the canonical order (a topological permutation of the services, lexicographically smallest of all); the cycle error exactly when `depends_on` has a cycle or names an unknown service; repeated entries and termination included |
| TopoSort.Release | server/internal/compose/plan.go:185-190 | lowering the counts of a finished service's dependents and queueing those that reach zero, one occurrence of a repeated dependency at a time |
| DependencyOrder.GreedyIsCanonical | server/internal/compose/plan.go:172-191 | always taking the smallest ready service yields a topological order that precedes every other one lexicographically |
| DependencyOrder.CanonicalUnique | server/internal/compose/plan.go:172-191 | there is only one such order, so the plan's order depends on nothing but the model |
| Strings.LessMeans | server/internal/compose/plan.go:172-191 | the alphabetical order is decided at the first difference, the shorter text first if there is none |
| DependencyOrder.CycleBlocks | server/internal/compose/plan.go:172-196 | a model with a cycle has no topological order |
| DependencyOrder.StuckHasCycle | server/internal/compose/plan.go:172-196 | when no service is ready and some are left, following unmet dependencies closes a real cycle (pigeonhole) |
| Ports.ParsePorts | server/internal/compose/plan.go:209-261 | the parsed list of all non-blank entries, or the first error met |
| Ports.PortsRoundTrip | server/internal/compose/plan.go:209-273 | parsing the printed ports of a builder list gives back the same list with protocols normalized if and only if every port is in range with protocol empty, tcp, udp or sctp in any case |
| Ports.BuilderPortStrings | server/internal/api/stacks.go:555-577 | prints every port in the short syntax, in order |
| Ports.PrintedSpelled | server/internal/api/stacks.go:555-577 | the text of a port: host port and colon if there is one, container port, and the protocol unless it is tcp |
| Ports.PublishableExactly | server/internal/compose/plan.go:222-273 | which builder ports can be published and the mapping they stand for |
| PlanTexts.AddressPort | server/internal/compose/plan.go:209-261 | address, host port (or none), container port, with or without a protocol in any case, is read as that mapping with the address dropped |
| PlanTexts.TooManyPortParts | server/internal/compose/plan.go:209-261 | a mapping of more than three parts is refused |
| PlanTexts.RangeRefused | server/internal/compose/plan.go:209-261 | a dash in the host or container part, and nothing else, is refused as a range |
| PlanTexts.PlannedPort | server/internal/compose/plan.go:66-100 | such a port is in the service's spec, at the place of its entry |
| ProjectNames.SanitizeProjectName | server/internal/compose/plan.go:355-377 | the loop computes the squeezed, trimmed, lower-cased name |
| ProjectNames.SanitizedMeans | server/internal/compose/plan.go:351-377 | the name is the meanings of its characters (letters in lower case, digits, separators; blanks, dots and slashes as dashes; nothing for the rest), of separators in a row the first, none at the ends |
| ProjectNames.TwoWords | server/internal/compose/plan.go:351-377 | two clean names in any case around a blank, dot or slash become one in lower case with a dash |
| ProjectNames.SanitizedIsClean | server/internal/compose/plan.go:351-377 | the result is made of lower-case letters and digits with single separators strictly inside |
| ProjectNames.SanitizeIdempotent | server/internal/compose/plan.go:355-377 | sanitizing a sanitized name changes nothing |
| StackPlan.BuildPlan | server/internal/compose/plan.go:46-121 | succeeds exactly when the project name survives sanitizing, the dependencies are known and acyclic and every port and volume parses; otherwise which error: an empty name, then a cycle, then the first faulty service in start-up order with its ports looked at before its volumes; on success the specs follow the canonical order with image, name, environment, ports, volumes, labels and restart policy, and with their aliases and networks |
| PlanTexts.MountAskedPadded | server/internal/compose/plan.go:285-310 | source:target, with or without a mode and with white space around it, is one mount of target from source |
| PlanTexts.BareTarget | server/internal/compose/plan.go:285-310 | a bare target is mounted without a source, a blank entry is skipped |
| PlanTexts.TooManyParts | server/internal/compose/plan.go:285-310 | a volume of more than three parts is refused |
| PlanTexts.MountsInOrder | server/internal/compose/plan.go:285-310 | a volumes list gives one mount for every entry that is not blank, in order |
| PlanTexts.PlannedMount | server/internal/compose/plan.go:66-100 | every mount a service asks for is in its spec, at the place of its entry |
| PlanTexts.PlannedSettings | server/internal/compose/plan.go:66-100 | a spec has its service's image, its container name or project-service, the last value given for each variable, its ports and restart policy |
| PlanTexts.PlannedNetwork | server/internal/compose/plan.go:108-120 | a network with a clean name is created as project_name and listed under its container |
| PlanTexts.PlannedAliases | server/internal/compose/plan.go:101-108 | a container whose name is its own is reachable by exactly its service's name and its own |
| ServiceSettings.EnvMap | server/internal/compose/plan.go:314-331 | the loop computes the environment of the entry list |
| ServiceSettings.LastEntryWins | server/internal/compose/plan.go:314-331 | a variable has the value given by the last entry that sets it, and is unset without one |
| PlanTexts.EntrySets | server/internal/compose/plan.go:314-331 | KEY=VALUE sets the trimmed key to the value as it stands, a bare KEY to the empty text, and nothing is set without a key |
| ServiceSettings.RestartPolicy | server/internal/compose/plan.go:336-349 | a known policy, trimmed and in lower case, is kept; anything else gives the empty policy |
| StackPlan.DraftNetworks | server/internal/compose/plan.go:108-120 | every network an item declares is in the plan's network set and in that container's extra networks |
| StackPlan.DraftListed | server/internal/compose/plan.go:108-120 | every extra network listed for a container is in the plan's network set |
| StackDeploy.DeployPlan | server/internal/api/stacks.go:287-337 | the calls made are the plan's script up to the first refused call, and the reported status is the one that stretch earns |
| StackDeploy.StartedIsPrefix | server/internal/api/stacks.go:310-336 | wherever a deployment stops, the started containers are an initial stretch of the plan |
| StackDeploy.StartedIsClosed | server/internal/api/stacks.go:310-336 | whatever call is refused, every dependency of a started service has been started |
| StackDeploy.StatusMeaning | server/internal/api/stacks.go:283-337 | for a plan with services: error exactly when nothing was started, running exactly when the whole script was carried out |
| StackDeploy.NoLookupMisses | server/internal/api/stacks.go:300-333 | an extra network of a container is always among the networks created before, so its id lookup cannot miss |
| StackDeploy.ScriptIsComplete | server/internal/api/stacks.go:310-336 | the whole script starts every service and joins it to the default network and to each network it declared |
| StackOutcome.RunningExactlyWhenDeployed | server/internal/api/stacks.go:287-337 | with a daemon that hands out distinct ids: at every stopping point the status is running exactly when every service was started and joined to the default network and to each network it declared, if and only if the plan's last call matters (a guard on model and plan) |
| StackOutcome.OwnNamesSuffice | server/internal/compose/plan.go:100-115 | when no other service shares the last one's container name, that guard only asks that its last declared network be neither the default one nor repeated |
| StackOutcome.RepeatedNetwork | server/internal/api/stacks.go:327-334 | a valid one-service stack that names a network twice: with only the last call refused everything is in place and the status is partial |
| StackOutcome.DefaultNetwork | server/internal/compose/plan.go:110-114 | the same for a service that names the network default |
| StackOutcome.SharedContainerName | server/internal/compose/plan.go:110-114 | the same for two services sharing a container name, where the second joins the first one's network |
| Authz.CoversTransitive | server/internal/authz/rbac.go:35-53 | wildcard coverage is transitive |
| Authz.CoversExactly | server/internal/authz/rbac.go:35-53 | a grant covers a permission exactly when it is the star, the permission itself, or a part of it followed by .* |
| Authz.CoversComparable | server/internal/authz/rbac.go:35-53 | two grants covering one permission are comparable |
| Authz.PermSetGrants | server/internal/authz/rbac.go:37-53 | the scan by split and join finds a grant exactly when some entry covers the permission |
| Authz.Can | server/internal/authz/rbac.go:14-33 | true exactly when a grant at the global key or at the scope's own key covers the permission |
| Authz.BuildUser | server/internal/authz/context.go:60-78 | each scope key holds exactly the permissions of the roles bound there |
| Authz.SuperuserMayAll | server/internal/authz/context.go:34-41 | a global superuser is exactly a user allowed everything everywhere |
| Authz.RestrictPerms | server/internal/authz/bearer.go:98-138 | the nested loops compute the restricted map |
| Authz.TokenBounded | server/internal/authz/bearer.go:91-138 | a scoped token never exceeds its owner nor its own scopes |
| Authz.TokenIsIntersection | server/internal/authz/bearer.go:91-138 | token and owner-and-scopes agree everywhere if and only if, at the owner's own scope keys, each token entry the owner may use is reached by a grant the token keeps |
| Authz.ExpressibleIsEverywhere | server/internal/authz/bearer.go:98-138 | looking at the owner's own keys is the same as looking at every scope there could be |
| Authz.ConcreteOwnersIntersect | server/internal/authz/bearer.go:98-138 | for owners with only concrete names and stars a token is exactly the intersection |
| Authz.WildcardOwnerLoses | server/internal/authz/bearer.go:119-131 | an owner's vm.* with a token scope vm.power keeps nothing |
| Rbac.StepBounded | server/internal/api/rbac.go:167-400 | one administration step gives a user only what the user or the acting user already held, at that scope |
| Rbac.NoEscalation | server/internal/api/rbac.go:167-400 | over any run of role and binding steps by a group of actors, nobody ever holds a permission at a scope that neither they nor one of the actors held there at the start |
| RbacEffects.CreateBindingGives | server/internal/api/rbac.go:167-214 | a successful binding gives exactly its user exactly what its role covers, in its scope, and nobody else anything |
| RbacEffects.CreateBindingExactly | server/internal/api/rbac.go:167-214 | it succeeds if and only if scope, user and role are known, the actor holds all the role covers wherever the binding would count, and the store takes it; every refusal names a reason that is there |
| RbacEffects.DeleteBindingTakes | server/internal/api/rbac.go:218-239 | a deleted binding takes away exactly what its user held through it alone |
| RbacEffects.DeleteBindingExactly | server/internal/api/rbac.go:218-239 | it succeeds if and only if the binding is the user's, the store takes it, and the user is not seen to be the last administrator or one who cannot be told from the last |
| RbacEffects.CreateRoleGivesNothing | server/internal/api/rbac.go:307-340 | a new role covers what its list covers and by itself changes nobody's permissions |
| RbacEffects.CreateRoleExactly | server/internal/api/rbac.go:307-340 | it succeeds if and only if the list is legal, the actor holds everything it covers everywhere, and the store takes it |
| RbacEffects.UpdateRoleChanges | server/internal/api/rbac.go:343-379 | after a change of a role exactly those bound to it, where they are bound, hold what the new list covers in place of the old; everything else is as before |
| RbacEffects.UpdateRoleExactly | server/internal/api/rbac.go:343-379 | the same condition for changing a role, built-in ones refused |
| RbacEffects.DeleteRoleTakes | server/internal/api/rbac.go:382-400 | a deleted role takes away exactly what was held through it alone |
| RbacEffects.KnownExactly | server/internal/api/permissions.go:203-234 | a permission may be written into a role exactly when it is a catalog entry or a wildcard at or above one |
| RbacEffects.ScopeIsExact | server/internal/authz/context.go:81-86 | a binding at a host or cluster counts at that very scope only, a global one everywhere |
| Rbac.AdminStep | server/internal/api/rbac.go:218-239 | a step keeps a global administrator if and only if it is not a successful deletion of the only administrator binding after a failed role lookup |
| RbacEffects.AdminMayAll | server/internal/api/rbac.go:218-239 | while the administrator role carries the star, an administrator binding left means that somebody may do everything everywhere |
| Rbac.AdminKeptExactly | server/internal/api/rbac.go:218-239 | the same for runs: there is an administrator throughout if and only if no step is such a deletion |
| Rbac.AdminNeverLost | server/internal/api/rbac.go:218-239 | no run in which every role lookup works removes the last global administrator binding |
| Rbac.FailedLookupLosesAdmin | server/internal/api/rbac.go:225-233 | one failed lookup lets the only administrator binding be deleted |
| RbacServer.ValidatePermissions | server/internal/api/permissions.go:203-234 | accepts exactly catalog entries and wildcards over a catalog entry |
| RbacServer.Server.EffectiveRolesForUser | server/internal/store/bindings.go:67-90 | a row for each binding of the user, with its role's permissions and scope |
| RbacServer.Server.ResolveActor | server/internal/authz/bearer.go:62-89 | the permissions resolved for an actor allow exactly what the actor's user holds in the store, cut to the token's scopes if the actor comes with a token |
| RbacServer.Server.UnheldPermissions | server/internal/api/rbac.go:255-263 | lists a permission exactly when it was asked for and the actor lacks it at the scope |
| RbacServer.Server.CreateRole | server/internal/api/rbac.go:307-340 | new state and outcome are those of the specified step, check at global scope included |
| RbacServer.Server.UpdateRole | server/internal/api/rbac.go:343-379 | the same for changing a role, built-in roles refused |
| RbacServer.Server.DeleteRole | server/internal/api/rbac.go:382-400 | the same for deleting a role, with its bindings |
| RbacServer.Server.CreateBinding | server/internal/api/rbac.go:167-214 | the same for binding a role, check at the binding's scope |
| RbacServer.Server.DeleteBinding | server/internal/api/rbac.go:218-239 | the same for removing a binding: refused for the last administrator, with a failed role lookup reading as no administrator and a failed count as none |
| Alarms.JudgeReading | server/internal/alarms/alarms.go:319-381 | what one reading does to its instance: refresh, start pending, raise, clear or drop |
| Alarms.Evaluate | server/internal/alarms/alarms.go:315-388 | the loops over definitions and readings compute the specified pass: next map, raised and cleared lists |
| AlarmReadings.PairsExactly | server/internal/alarms/alarms.go:315-321 | a pass judges exactly the readings of enabled definitions |
| AlarmReadings.RaisesDescribe | server/internal/alarms/alarms.go:324-381 | every raise names the definition and object of a reading on the wrong side of its threshold, or in the unwanted state, and the time of the pass |
| AlarmReadings.ClearsDescribe | server/internal/alarms/alarms.go:324-381 | every clear names those of a reading that is not, the time of the pass, and the raise time of the alarm that was active |
| Alarms.PassAt | server/internal/alarms/alarms.go:315-388 | with distinct keys, the entry and events of a read key are those of its own reading and prior alone |
| Alarms.PassAbsent | server/internal/alarms/alarms.go:315-388 | a key without a reading is dropped without any event |
| Alarms.KeyInjective | server/internal/alarms/alarms.go:321-323 | definition and object ids can be read off a key when definition ids hold no colon |
| AlarmEngine.Engine.Tick | server/internal/alarms/alarms.go:479-513 | one pass over the readings; the active instances replace the table when the store accepts |
| AlarmEngine.Engine.SaveActive | server/internal/api/alarms.go:78-90 | the table becomes exactly the rows of the active instances |
| AlarmEngine.Engine.Resume | server/internal/alarms/alarms.go:426-439 | every stored instance is put back under its id; after a failed load nothing is |
| AlarmEngine.ResumeAfterSave | server/internal/api/alarms.go:78-108 | after a save and a restart exactly the active instances are back, to the second, as already raised |
| AlarmEngine.RowTimes | server/internal/api/alarms.go:78-108 | a row keeps raise and notification time in whole seconds since 1970, rounded down |
| AlarmRuns.EngineLives | server/internal/alarms/alarms.go:315-388 | every run of the whole engine, seen at one key, is a run of the per-alarm life cycle |
| AlarmRuns.ActiveSetLaw | server/internal/alarms/alarms.go:324-387 | at every tick the new active set is the old one still breaching plus the raised, and exactly the old ones read as healthy clear |
| AlarmRuns.RaiseNeedsBlock | server/internal/alarms/alarms.go:291-388 | a raise is backed by an unbroken block of breaching ticks lasting at least the duration in force |
| AlarmRuns.ActiveExactly | server/internal/alarms/alarms.go:291-388 | an alarm is active exactly when its object has breached without a break since some tick and the breach reached the duration in force at some tick since, with no restart before that |
| AlarmReadings.ActiveByReadings | server/internal/alarms/alarms.go:291-388 | in terms of readings: an alarm is active exactly when an enabled definition's readings with data have been above (GT), below (LT) or at (EQ) its threshold, or in its state up to case, without a break since some tick, and had been for its duration at some tick since, with no restart before that |
| AlarmReadings.RaisedOutOfBounds | server/internal/alarms/alarms.go:291-388 | what is raised or active has just been read with data and on the wrong side of its threshold |
| AlarmReadings.FurtherStaysActive | server/internal/alarms/alarms.go:291-388 | a larger value never ends or prevents a GT alarm, a smaller one never an LT alarm |
| AlarmReadings.RecordDescribes | server/internal/alarms/alarms.go:324-345 | an instance on record describes its last reading, restart or not |
| AlarmReadings.ActiveSince | server/internal/alarms/alarms.go:319-439 | an active alarm shows the time of the tick that raised it, however often the engine restarted since, but for a fraction of a second; it is also the time of its notification, which a restart forgets |
| AlarmRuns.ClearNeedsRaise | server/internal/alarms/alarms.go:324-387 | a clear only follows a raise with no clear in between |
| AlarmRuns.RaisesNeedGap | server/internal/alarms/alarms.go:324-387 | two raises are separated by a clear or a tick without reading |
| AlarmRuns.RestartsOnlyDelay | server/internal/alarms/alarms.go:426-439 | when restarts resume what the tick before them saved: with the same ticks and clock, the active alarms of an engine that restarts are always among those of one that does not |
| AlarmSaves.RestartsContained | server/internal/alarms/alarms.go:426-513 | when any save and load may fail: that containment holds if and only if every row a restart resumes belongs to an object that has breached, without a break and long enough, up to that restart |
| AlarmSaves.FreshRestartsContained | server/internal/alarms/alarms.go:426-513 | it holds whenever each restart that loads follows a successful save |
| AlarmSaves.StaleSaveRevives | server/internal/alarms/alarms.go:502-504 | for every definition without a minimum duration and every object it is read on: saved while breaching, then healthy with a failed save, then a loading restart is a run of the engine with the alarm active again, while it is not in the uninterrupted run |
| AlarmRuns.ActiveStaysInStep | server/internal/alarms/alarms.go:426-439 | in the same runs, alarms active at a restart stay in step in both engines until they heal or lose their reading |
| Guac.WriteInstr | server/internal/guac/guac.go:191-208 | the builder's text is the instruction's encoding |
| Guac.InstrRoundTrip | server/internal/guac/guac.go:191-246 | whatever text the elements hold, reading a written instruction gives it back and leaves what follows untouched |
| Guac.LengthMeans | server/internal/guac/guac.go:213-271 | a length counts code points, less than one standing for none; a stream too short for it is an error |
| Guac.StreamRoundTrip | server/internal/guac/guac.go:187-271 | a written stream of instructions reads back exactly, and exactly the trailing text remains |
| GuacConn.Conn.ReadInstr | server/internal/guac/guac.go:213-246 | the reading loop returns what the grammar says, consuming exactly that, or the first error |
| GuacConn.Conn.ReadRunes | server/internal/guac/guac.go:258-271 | exactly n code points, or none at all when the stream is too short; a negative count reads as zero |
| GuacConn.BuildAnswers | server/internal/guac/guac.go:110-124 | one value per announced name in order, version tokens echoed |
| GuacConn.AnswersSpelled | server/internal/guac/guac.go:110-124 | a name that begins with VERSION_ is answered with itself, any other with its value |
| GuacConn.ValueByTable | server/internal/guac/guac.go:140-174 | a value comes from the connection's fields, then from what the protocol fixes, then from the caller's extras |
| GuacConn.Conn.Handshake | server/internal/guac/guac.go:82-137 | succeeds exactly when all six writes do and guacd answers args, then ready; then exactly the six instructions were sent and exactly the two answers consumed |
| GuacConn.SentSpelled | server/internal/guac/guac.go:82-137 | the six instructions, word by word |
| GuacConn.Conn.Dial | server/internal/guac/guac.go:52-72 | a connection is handed out exactly when the socket opens and the handshake succeeds, which then used the defaults for a missing size or resolution |
| GuacConn.MissingSizes | server/internal/guac/guac.go:52-72 | a missing size or resolution is 1024 by 768 at 96 dpi, what was asked for is kept |
| GuacConn.HandshakeLeavesTheTunnel | server/internal/guac/guac.go:82-137 | against any cooperating peer the handshake sees exactly the announced names and leaves exactly the bytes behind its answers |
| GuacConn.GuacdReadsTheAnswers | server/internal/guac/guac.go:104-128 | the peer reads back the six instructions, connect holding one answer per announced name in its order |
| Streams.Registry.AcquireStats | server/internal/cache/streams.go:57-74 | the registry's new state, the new handle and the superseded subscription reported are those of the specified step |
| Streams.Registry.ReleaseStats | server/internal/cache/streams.go:78-86 | the same for a release, which may create an empty session entry |
| Streams.Registry.CloseSession | server/internal/cache/streams.go:90-106 | the same for closing a session |
| Streams.LiveExactly | server/internal/cache/streams.go:41-106 | over any run a stream is live exactly when no later step acquired for its session, closed it or released that subscription, which is also exactly when it is the one on record |
| Streams.OneLivePerSession | server/internal/cache/streams.go:52-74 | an acquire ends every earlier stream of its session |
| Streams.ForgottenHasNone | server/internal/cache/streams.go:88-106 | a session not on record has no live stream |
| Streams.SupersededExactly | server/internal/cache/streams.go:57-74 | a takeover is reported exactly when a stream of another subscription of that session is still live |
| Streams.StaleReleaseIsHarmless | server/internal/cache/streams.go:76-86 | releasing any subscription but the one on record changes no stream |
| Scheduler.Engine.Stop | server/internal/backup/backup.go:165-175 | every ticker is cancelled, every policy stays registered |
| Scheduler.Engine.Upsert | server/internal/backup/backup.go:178-194 | the policy is replaced, its ticker cancelled, and a new one launched exactly when running and enabled |
| Scheduler.Engine.Remove | server/internal/backup/backup.go:197-206 | the policy and its ticker are gone, nothing else changes |
| Scheduler.RunConsistent | server/internal/backup/backup.go:158-230 | over any run the live tickers are exactly those recorded, one per policy, and a policy has one only while the engine runs and its latest definition is enabled |
| Scheduler.LiveExactly | server/internal/backup/backup.go:158-230 | a ticker lives exactly until a stop, or an upsert or removal of its policy |
| Scheduler.ScheduledExactly | server/internal/backup/backup.go:158-230 | a policy is scheduled exactly when its last upsert was enabled and came while started, with no stop and no removal since |
| Scheduler.LaunchedCounts | server/internal/backup/backup.go:158-230 | tickers are launched by exactly the enabled upserts that come while started |
| Scheduler.RestartSchedulesNothing | server/internal/backup/backup.go:158-175 | stop then start leaves nothing scheduled |
| BackupKeys.OneOwner | server/internal/backup/backup.go:329-332 | no object key lies under two different backups' prefixes when VM ids hold no slash |
| BackupKeys.CoversExactly | server/internal/backup/backup.go:329-332 | one backup's prefix covers another backup if and only if VM and second are the same, or the first's VM id and second with their slashes begin the second's VM id followed by a slash |
| BackupKeys.OnlyOwnCovered | server/internal/backup/backup.go:329-332 | a backup of a VM whose id holds no slash is covered by its own prefix only |
| BackupKeys.SlashesCollide | server/internal/backup/backup.go:329-332 | this happens to every VM: its backup of a second covers every backup of the VM whose id is its own, a slash and that second |
| BackupEngine.Engine.BackupNow | server/internal/backup/backup.go:301-403 | rows, objects and result for every combination of failing calls, partially landed uploads included |
| BackupRecords.RowIsAsAsked | server/internal/backup/backup.go:329-403 | a recorded backup leaves the row of the VM, backend, policy and time asked for, completed exactly when both uploads and the final update took effect, failed exactly when an upload did not and the mark did |
| BackupRecords.StoresExactly | server/internal/backup/backup.go:329-403 | what a backup stores for every combination of failing calls: the disk image and the manifest exactly when their uploads were reached and landed, and nothing else |
| BackupRecords.SuccessStoresAsAsked | server/internal/backup/backup.go:329-403 | a successful backup adds exactly its disk image and manifest, on the backend asked for under vm/, the VM's id and the second |
| BackupRecords.RowsWereAsked | server/internal/backup/backup.go:268-455 | over any run every row on record is the one its backup step asked for |
| BackupRecords.ObjectsWereAsked | server/internal/backup/backup.go:268-455 | over any run every stored object is the disk image or manifest of some backup step, where it was asked for |
| BackupRecords.PrunedHasNewerBackups | server/internal/backup/backup.go:268-289 | after any run, a backup that a prune takes off the record leaves at least keep finished backups of its policy asked for no earlier |
| BackupEngine.Engine.DeleteBackupArtifactsAndRow | server/internal/backup/backup.go:592-610 | exactly the targeted objects whose removal succeeds are gone, then the row |
| BackupEngine.Engine.PruneRetention | server/internal/backup/backup.go:270-289 | deletes all but the newest keep in turn, visiting every one; success exactly when each was deleted |
| Backups.DeleteSparesOthers | server/internal/backup/backup.go:592-610 | deleting one backup leaves every object of every other backup untouched, unless one of the two prefixes covers the other on one backend |
| Backups.FullDeletionSparesExactly | server/internal/backup/backup.go:592-610 | a deletion whose calls succeed leaves another backup's disk and manifest in place if and only if its prefix does not cover that backup |
| Backups.SlashFreeClash | server/internal/backup/backup.go:329-332 | with VM ids free of slashes two backups clash only when backend, VM and second are the same |
| Backups.DeleteIsComplete | server/internal/backup/backup.go:592-610 | a deletion without failures removes the row and everything under its prefix |
| Backups.DeleteWithoutListing | server/internal/backup/backup.go:592-610 | when the backend cannot list, a deletion without other failures removes exactly the recorded disks and the manifest |
| Backups.CompletedStaysRestorable | server/internal/backup/backup.go:268-455 | over any run of backups, deletions and prunes, with any failures: a completed row has lost its manifest or disk if and only if some step since it went on record removed one of them and could not remove the row |
| Backups.RowOutlivesArtifacts | server/internal/backup/backup.go:592-610 | this does happen: a failed row removal leaves a completed row without artifacts |
| Backups.PruneKeepsTheNewest | server/internal/backup/backup.go:268-289 | a prune removes only completed rows of its policy, never one of the newest keep, and all the others when no row removal fails |
| Backups.AllDeletedExactly | server/internal/backup/backup.go:268-289 | a prune of rows on record succeeds exactly when every row removal does |
| Costs.NormalizeOnce | server/internal/finops/ratecard.go:60-85 | normalizing again changes neither card nor price |
| Costs.PricesAreNonNegative | server/internal/finops/engine.go:73-104 | no price is negative for any card, and a stopped entity costs exactly its storage share |
| Costs.SmallerIsNotDearer | server/internal/finops/engine.go:73-104 | a smaller allocation never costs more |
| Costs.MonthlyPrice | server/internal/finops/engine.go:73-104 | the monthly price, spelled out: 730 hours of cores and memory while running, at a container's own rates where they are positive and it is one, and storage at the monthly rate always; no rate below zero |
| Rightsizing.ComputeUtilization | server/internal/finops/rightsizing.go:37-75 | peaks are the largest readings or zero, averages the means, samples without memory limit left out |
| Rightsizing.ReadingsMean | server/internal/finops/rightsizing.go:45-66 | a reading is the use in percent of all cores, or of the memory limit |
| Rightsizing.AverageMeans | server/internal/finops/rightsizing.go:67-75 | an average times the number of readings is their sum |
| Rightsizing.RemeasuredCpu | server/internal/finops/rightsizing.go:47-53 | the same samples against another core count have the same absolute peak load |
| Rightsizing.RemeasuredMem | server/internal/finops/rightsizing.go:57-66 | the same use against rescaled memory limits has the same absolute peak load |
| Recommendations.NormalizedThresholds | server/internal/finops/rightsizing.go:106-125 | thresholds in (0, 100] and a positive sample count are kept, anything else is replaced by 5, 10, 30 and 40 percent and 3 samples |
| Recommendations.Recommend | server/internal/finops/rightsizing.go:166-257 | exactly the verdicts on the inputs, largest savings first, ties by id, equal ones in input order |
| Recommendations.OversizedLeavesHeadroom | server/internal/finops/rightsizing.go:200-231 | an oversized recommendation shrinks something, grows nothing, and leaves twice the observed peak in what it shrinks |
| RecommendationLaws.VerdictExactly | server/internal/finops/rightsizing.go:166-235 | a running entity with enough samples is idle exactly when both peaks are within the idle thresholds, and otherwise oversized exactly when some dimension is within its threshold and a smaller whole core or half GiB holds twice its peak |
| RecommendationLaws.SuggestedSizeIsLeast | server/internal/finops/rightsizing.go:200-231 | each such dimension is cut to the least number of cores or half GiB, at least one, that holds twice its peak; the other stays |
| RecommendationLaws.IdleSuggestsNothing | server/internal/finops/rightsizing.go:181-198 | an idle entity is suggested no cores and no memory |
| RecommendationLaws.SavingsAreThePriceDifference | server/internal/finops/rightsizing.go:181-247 | savings are the entity's price less its price in the suggested size, or stopped if idle |
| RecommendationLaws.AdvisedExactly | server/internal/finops/rightsizing.go:166-249 | the list holds exactly the verdicts on the inputs |
| RecommendationLaws.SavingsDescend | server/internal/finops/rightsizing.go:250-255 | largest savings first, equal ones by entity id |
| Recommendations.SavingsBounded | server/internal/finops/rightsizing.go:181-247 | savings lie between zero and the current monthly cost |
| Recommendations.TotalSavings | server/internal/finops/rightsizing.go:260-266 | the loop adds up the savings |
| Recommendations.TotalWithinSpend | server/internal/finops/rightsizing.go:166-266 | over inputs drawn once each from a cost list, total savings never exceed the list's total cost |
| Recommendations.OneStepIsEnough | server/internal/finops/rightsizing.go:166-248 | after applying an oversized recommendation, the same absolute peak gives no further recommendation, neither oversized nor idle |
| Recommendations.OneStepIsEnoughForSamples | server/internal/finops/rightsizing.go:37-248 | the same, measured from the samples themselves |
| Sorting.SortOrders | server/internal/finops/engine.go:290-296 | the stable sort leaves no element before one it should follow |
| Sorting.SortIsStable | server/internal/finops/engine.go:290-296 | elements of equal rank keep their order |
| Rollup.Summarize | server/internal/finops/engine.go:220-284 | totals, four sorted breakdowns and the top spenders, each as specified |
| Rollup.SortGroups | server/internal/finops/engine.go:286-298 | each group of the map once, dearest first |
| Rollup.ListingIsUnique | server/internal/finops/engine.go:286-298 | the listing does not depend on the order the map is walked in |
| Rollup.TopSpenders | server/internal/finops/engine.go:268-279 | the n dearest, in order, none left out coming before one of them |
| Rollup.SpendersDescend | server/internal/finops/engine.go:268-279 | dearest first, then by id, and nothing dearer is left out |
| Rollup.GroupsDescend | server/internal/finops/engine.go:286-298 | groups with larger monthly cost first, equal ones by key |
| Rollup.BreakdownKeys | server/internal/finops/engine.go:245-260 | each breakdown groups by the field it is named after |
| Rollup.DomainCaptions | server/internal/finops/engine.go:300-309 | the captions of the breakdown by domain |
| Rollup.TitleOfTwo | server/internal/finops/engine.go:300-309 | in other captions only a character that is no letter, digit or underscore makes the next letter a capital |
| Rollup.GroupsConserve | server/internal/finops/engine.go:225-266 | each breakdown adds up to the totals over the entities that have its key: hourly, monthly and count |
| Rollup.DomainsAddUp | server/internal/finops/engine.go:245-263 | the per-domain groups add up to the grand totals, and VMs and the rest split the hourly total |

## Left out

- TopoSort.TopoSort: an unknown dependency gives the cycle error here as in the code; the validated models the planner receives have none.
- Ports.ParsePorts: which of several faulty entries is reported is the first one; the message texts are not modelled.
- StackPlan.BuildPlan: command and host-mount lists are not carried; the order of the plan's network list is arbitrary, as in the code.
- StackDeploy.DeployPlan: container and network ids are arbitrary functions of the call and the name; existing resources, pulls and roll-back are the daemon's business.
- YAML decoding and normalization: the model starts from a decoded model of services.
- ProjectNames.SanitizeProjectName: lower-casing and case folding cover ASCII; other code points are kept as they are.
- Rbac.NoEscalation: the steps are the role and binding handlers; user creation, user deletion, SSO role resync, and inactive users are not steps. Apart from the administrator lookup and count, failing reads stop a handler before it changes anything and are left out.
- RbacServer.Server.CreateBinding: the existence checks of host and cluster scope ids, audit records and HTTP status texts are not modelled.
- Alarms.Evaluate: metric collection, notifications and message texts are not modelled; values are reals, so NaN readings are left out, and the saturation of time differences is left out.
- AlarmRuns.RestartsOnlyDelay: runs here resume what the last tick saved, as do those of the other lemmas of this module; runs with failing saves and loads are those of AlarmSaves. Rows deleted together with a definition are not part of the runs.
- Guac.StreamRoundTrip: text is a sequence of code points, so invalid UTF-8 is left out; element lengths stay below 2^63.
- GuacConn.Conn.Handshake: timeouts and the byte pump after the handshake are not modelled; a failed write adds nothing to the output.
- Streams.Registry.AcquireStats: parent contexts that are cancelled from outside and interleavings finer than one call are left out.
- Scheduler.Engine.Upsert: a ticker is a number that is live or cancelled; its interval, its runs and the lock that serializes them are left out.
- BackupEngine.Engine.BackupNow: snapshots, conversion, staging, sizes and manifest contents do not affect which objects exist and are left out; the engine always has a recorder.
- BackupEngine.Engine.PruneRetention: the store's listing is a parameter assumed to be what its query promises.
- Restore: reads only, and its hardware defaults are constants.
- Rightsizing.ComputeUtilization: floating-point rounding is left out, amounts are reals.
- Recommendations.Recommend: texts, severities and copied fields are left out; the conversion of a core count to a machine integer does not overflow.
- Rollup.Summarize: title-casing of unknown domain names covers ASCII.
- PriceInventory and the adapters from inventory records: field copies and one more sort in the same order.
- HTTP handlers, WebSocket pumps, mail and webhook delivery, cryptography, cookies, login and session handling: thin layers over libraries that are not part of this model.
