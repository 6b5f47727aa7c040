# Verification of cornflow's solvers and server tables

A Dafny model of the parts of cornflow that keep and rewrite state: the ROADEF
inventory-routing builder and the experiment that checks its schedules, the
route labels and post-processing of the MIP model, the knapsack solvers, the
tree of cases stored as materialized paths, the reconciliation of roles, views
and permissions, and four smaller algorithms.

`dafny verify dfyconfig.toml` checks the whole project.

## How it is laid out

| file | models |
|---|---|
| `RoadefModel.dfy` | instances, shifts and stops; the reference for a customer's tank at an hour |
| `RoadefChecker.dfy` | what the experiment asks of a schedule: the stable sort, the conditions on stops, shifts and neighbouring shifts, the recounted figures |
| `RoadefReports.dfy`, `RoadefTanks.dfy` | the experiment's checks, each a method whose contract says exactly when it reports nothing, and what it lists when it does |
| `RoadefPlan.dfy`, `RoadefMoves.dfy` | the builder's state as a value, its moves, and the invariant each move keeps |
| `RoadefSafety.dfy` | what the invariant means to the experiment's checks |
| `RoadefErased.dfy` | moves without their quantities: what of the invariant no quantity can break |
| `RoadefRuns.dfy` | the results over every run of moves, and over those in turn |
| `RoadefRoom.dfy` | exactly which runs keep the trailers' stock, the signs and the capacity of the tanks |
| `RoadefEffects.dfy` | what each move does, told of the state before and after it: the stop added, where the stock goes, who went home and how |
| `RoadefGreedy.dfy` | the builder as a class that updates its tables in place, each method tied to a move and to its effect |
| `RoadefLabels.dfy` | route labels, and the shifts made of them |
| `RoadefPostProcess.dfy`, `RoadefPostProcessSafety.dfy` | removal of idle stops and dropping of empty shifts, and that the per-shift and linking checks stay silent |
| `RoadefPostProcessQuantities.dfy`, `RoadefPostProcessTanks.dfy` | what the post-processing does to the quantities brought, and to the tanks hour by hour |
| `RoadefConverted.dfy` | from the labels the solver chose to the final schedule |
| `RoadefExamples.dfy` | schedules on which the code does less than it is meant to |
| `RoadefSolutionTables.dfy`, `RoadefInstanceTables.dfy` | the tables solutions and instances are written to and read from |
| `Permutations.dfy`, `Knapsack.dfy`, `KnapsackGreedy.dfy` | index permutations, the dynamic solver, the three heuristics |
| `CasePaths.dfy`, `CaseTree.dfy` | the path encoding and the LIKE test; the table of cases against a forest of parent pointers |
| `Access.dfy`, `AccessCommands.dfy` | what the code declares and who it allows to do what; the tables and the commands |
| `SubclassSearch.dfy`, `TspTour.dfy`, `FacilityFlow.dfy`, `Sums.dfy`, `Wrappers.dfy` | the subclass search, tour extraction, flow balance, and helpers |

## What the results rest on

- ROADEF runs start from an empty solution, with unit 60, no travel time from the
  base to itself, non-negative travel times, setup times and forecasts, tanks
  and trailers that start within capacity, and a forecast for every hour.
- A run is any sequence of moves the builder's methods can make, where a delivery
  arrives within the horizon, as the tank arrays have no other hours. After every
  run the timeline, setup, compatibility, rest, overlap and initial-stock checks
  find nothing (`RoadefRuns.EveryRunIsTimely`), no trailer's stock is negative
  (`RoadefRoom.EveryRunIsStocked`), the tank arrays are those recomputed
  (`RoadefRuns.EveryRunKeepsTanks`, `RoadefRuns.RecalculateAfter`), and drivers
  stay within their limits if every visit leaves time to return
  (`RoadefRuns.EveryReturningRunIsWithinDriving`).
- The signs of quantities, the trailers' capacity and the tanks' capacity ask for
  more. They hold of runs whose deliveries are *in turn*, not arriving before the
  customer's last refill (`RoadefRuns.EveryRunIsSilent`,
  `RoadefRuns.EveryRunPassesSiteCheck`). A positive slack entry implies this
  (`RoadefRuns.PositiveSlackIsGuarded`); the fallback of `positive_argmin` does
  not ask for it. What they need exactly is in the next section.
- After a loading on the way the source delivers if the new slack entry is not
  negative. If the entry was positive before, that entry is enough
  (`RoadefRuns.DetourThenDelivers`). The entries the source reads there are those
  computed before `back_to_base`, which may have sent the driver home on an entry
  of 0 in between; whether such a delivery is in turn is not shown.
- The triangle inequality is assumed only where a lemma names it.
- Weights are non-negative, and the direct and random heuristics need at least
  one item, as the minimum of no weights is an error in the source.

## What the proofs found

Each with its exact condition, and most with a small input that shows it.

- The builder does not look at the hours after a delivery's arrival. No tank is
  above its capacity throughout a run exactly when each delivery fits at every
  hour from its arrival on (`RoadefRoom.EveryRunFitsIff`). Once a tank is above, a
  delivery there takes from it. The signs and the trailers' capacity are right
  after a run exactly when no delivery found its tank so
  (`RoadefRoom.EveryRunIsSilentIff`). Both can happen from an initial plan
  (`RoadefExamples.OutOfTurnReached`, `RoadefExamples.OutOfTurnTakesBack`).
- Post-processing can make a tank overflow: without an idle stop, later
  deliveries arrive earlier. It does so exactly when what is advanced into some
  hour exceeds the room left there (`RoadefPostProcessTanks.SiteCheckStaysSilentIff`,
  `RoadefExamples.AdvancedDeliveryOverflows`), and never where the old tank had
  room for all that shifts with an idle stop bring later
  (`RoadefPostProcessTanks.RoomKeepsCapacity`). No tank gets lower.
- Post-processing drops a shift that lost a stop and has at most two left, and
  with it what they bring (`RoadefPostProcessQuantities.QuantitiesSurviveIff`).
  Where shifts run from the base to the base, as those made of labels do, that is
  nothing
  (`RoadefPostProcessQuantities.PostProcessKeepsQuantities`); it takes a shift that
  does not return (`RoadefExamples.DroppedDelivery`).
- The trailer's final-stock check compares a sum with itself and never reports
  anything (`RoadefReports.CheckFinalInventory`).
- The tank checks' guard `location <= 1 + nb_sources` skips the first customer
  (`RoadefTanks.CheckSiteExceeds`, `RoadefExamples.SkippedCustomerOverflows`).
- A layover before any stop but the first makes the duration check fail, as it
  indexes the driver's id (`RoadefReports.CheckMaxDuration`,
  `RoadefExamples.LateLayoverExample`).
- The greedy pass stops once the smallest weight is not strictly below the room
  left, and so leaves out an item that fits exactly when an item of smallest
  weight would fill the room (`KnapsackGreedy.EarlyExitLosesExactlyTheExactFill`,
  `KnapsackGreedy.EarlyExitExample`).
- `move_to` does not check the new parent. A move into the moved subtree leaves
  a table whose paths belong to no forest (`CaseTree.MoveKeepsForestIff`,
  `CaseTree.MoveUnderItself`), and a move may put a case under one with data,
  which `from_parent_id` refuses. A patch may give data to a folder that holds
  cases. Nothing else does (`CaseTree.RunStaysInFoldersIff`,
  `CaseTree.MoveUnderData`, `CaseTree.PatchKeepsFoldersIff`).
- A disabled permission that the code grants, a disabled role that it refers to,
  or a disabled permission of a view to delete keeps the access commands from
  settling the tables: disabled rows are not seen when the rows to insert are
  computed, but still hold their unique keys and references
  (`AccessCommands.Database.AccessInit`, `AccessCommands.DisabledPermissionBlocks`).
- A solution with an empty route is written but cannot be read back
  (`RoadefSolutionTables.RoundTrip`, `RoadefSolutionTables.EmptyRouteExample`).
- An instance is not recovered if it has no coordinates, if a forecast has a
  negative entry or another length than the horizon, or if a source and a
  customer share an id and one of them lists a trailer
  (`RoadefInstanceTables.ReadBackIsWritten`,
  `RoadefInstanceTables.NegativeForecastIsLost`,
  `RoadefInstanceTables.SharedIdMixesTrailers`).
- `all_subclasses` contains the class itself exactly when the given models list
  it, although its documentation speaks of subclasses only
  (`SubclassSearch.AllSubclasses`).

## Model

| member | source | states |
|---|---|---|
| `RoadefRuns.EveryRunIsTimely` | cornflow-dags/DAG/roadef/solvers/Greedy.py:604-759 | after any sequence of moves from the initial state, deliveries in turn or not, every shift passes the timeline, setup and compatibility checks and lets the duration check through, and the initial-stock, rest and overlap checks find nothing |
| `RoadefRuns.EveryRunIsSilent` | cornflow-dags/DAG/roadef/solvers/Greedy.py:604-759 | if every delivery is in turn, the trailer stock bounds and the signs of quantities hold as well, and all those checks find nothing |
| `RoadefRuns.EveryRunKeepsTanks` | cornflow-dags/DAG/roadef/solvers/Greedy.py:662-664 | after any run, deliveries in turn or not and tanks starting at any level, for every customer and hour, the tank array updated in place is the reference sum over the shifts, and is what `calculate_inventories` gives, no delivery falling outside its arrays; if deliveries are in turn it is within capacity |
| `RoadefRuns.RecalculateAfter` | cornflow-dags/DAG/roadef/core/experiment.py:112-163 | recomputing the tanks after any run, deliveries in turn or not, succeeds and gives the arrays the builder holds |
| `RoadefRoom.EveryRunIsSilentIff` | cornflow-dags/DAG/roadef/solvers/Greedy.py:604-759 | after any run, the timeline, setup, stock, sign, compatibility, rest, overlap and initial-stock checks all find nothing exactly when no delivery of the run found the tank above its capacity at the hour of arrival |
| `RoadefRoom.EveryRunFitsIff` | cornflow-dags/DAG/roadef/solvers/Greedy.py:786-799 | for any run, no customer's recomputed tank is above its capacity after any of its moves exactly when each delivery fits the tank at every hour from its arrival on |
| `RoadefRoom.EveryRunIsStocked` | cornflow-dags/DAG/roadef/solvers/Greedy.py:786-799 | after any run no trailer's stock is negative at any stop |
| `RoadefRoom.FittingIsRoomy` | cornflow-dags/DAG/roadef/solvers/Greedy.py:786-799 | a run whose deliveries all fit is one none of whose deliveries finds a tank above its capacity |
| `RoadefRoom.InTurnIsFitting` | cornflow-dags/DAG/roadef/solvers/Greedy.py:434-491 | in a run from a good state whose deliveries are in turn, each delivery fits |
| `RoadefRuns.EveryRunPassesSiteCheck` | cornflow-dags/DAG/roadef/core/experiment.py:622-654 | after any run in turn the shifts are ones the tanks can be recomputed from, and no customer's recomputed tank exceeds its capacity at any hour, the customer the check skips included |
| `RoadefRuns.EveryReturningRunIsWithinDriving` | cornflow-dags/DAG/roadef/solvers/Greedy.py:469-474 | after any run, in turn or not, whose visits leave time to return, no stop of any shift exceeds the driving limit, and recounting the driving times changes nothing |
| `RoadefRuns.MoveKeepsGood` | cornflow-dags/DAG/roadef/solvers/Greedy.py:604-759 | a guarded delivery, loading, end of shift or pause keeps the invariant of vehicles, shifts and tanks |
| `RoadefRuns.MoveKeepsDriving` | cornflow-dags/DAG/roadef/solvers/Greedy.py:469-474 | a move, in turn or not, that leaves time to return keeps every driver able to return within the limit |
| `RoadefRuns.PositiveSlackIsGuarded` | cornflow-dags/DAG/roadef/solvers/Greedy.py:434-491 | a positive slack entry implies every guard of a delivery: in turn, within the horizon, with time to return |
| `RoadefRuns.PositiveSlackFindsStock` | cornflow-dags/DAG/roadef/solvers/Greedy.py:288-305 | what the slack is for: at a positive entry, the tank holds something at every hour from the last refill to one hour after the arrival |
| `RoadefRuns.DetourIsWithinDriving` | cornflow-dags/DAG/roadef/solvers/Greedy.py:558-602 | with the triangle inequality, what the source search accepts for a customer leaves time for the loading and then for the delivery |
| `RoadefRuns.DetourThenDelivers` | cornflow-dags/DAG/roadef/solvers/Greedy.py:121-142 | with the triangle inequality, a positive entry before and a detour the source search accepts, the loading meets every guard, and so does the delivery if the entry computed afterwards is not negative |
| `RoadefRuns.InitialIsGood` | cornflow-dags/DAG/roadef/solvers/Greedy.py:225-251 | what the initialisation sets up satisfies the invariant |
| `RoadefSafety.InvIsSilent` | cornflow-dags/DAG/roadef/core/experiment.py:189-271 | the builder's invariant implies that every per-shift and every linking check is silent |
| `RoadefSafety.QuantityIsNotNegative` | cornflow-dags/DAG/roadef/solvers/Greedy.py:786-799 | a delivery in turn never has a negative quantity, nor one above the trailer's stock |
| `RoadefSafety.CustomerKeepsTanks` | cornflow-dags/DAG/roadef/solvers/Greedy.py:662-664 | a delivery in turn keeps every tank equal to its recomputation and within capacity at all hours, not only at the delivery |
| `RoadefSafety.CustomerKeepsSums` | cornflow-dags/DAG/roadef/solvers/Greedy.py:662-664 | any delivery within the horizon keeps every tank equal to its recomputation |
| `RoadefSafety.OutOfTurnOverflows` | cornflow-dags/DAG/roadef/solvers/Greedy.py:786-799 | a positive delivery before an hour at which the tank is full is never in turn, and does overflow the tank at that hour |
| `RoadefSafety.DeliveryFitsIff` | cornflow-dags/DAG/roadef/solvers/Greedy.py:786-799 | a delivery within the horizon, in turn or not, keeps the recomputed tank within capacity at all hours exactly when every hour from the arrival on has room for its quantity |
| `RoadefSafety.FillingFitsIff` | cornflow-dags/DAG/roadef/solvers/Greedy.py:786-799 | where the stock covers the room, exactly when no later hour is fuller than the hour of arrival |
| `RoadefSafety.InTurnFits` | cornflow-dags/DAG/roadef/solvers/Greedy.py:786-799 | a delivery in turn fits at every hour from its arrival on |
| `RoadefExamples.OutOfTurnReached` | cornflow-dags/DAG/roadef/solvers/Greedy.py:384-432 | a guarded run from an initial plan after which such a delivery, within the driving limit, overflows the tank |
| `RoadefExamples.OutOfTurnTakesBack` | cornflow-dags/DAG/roadef/solvers/Greedy.py:786-799 | a run from an initial plan after which a shift, though on time, takes a quantity out of a tank and leaves with more than its trailer holds |
| `RoadefSafety.TankOnlyEmpties` | cornflow-dags/DAG/roadef/core/experiment.py:112-163 | from the last delivery on, a tank's stock never rises |
| `RoadefSafety.RecountChangesNothing` | cornflow-dags/DAG/roadef/core/experiment.py:44-77 | the driving times the builder stores are those the experiment counts |
| `RoadefSafety.CheckSchedule` | cornflow-dags/DAG/roadef/core/experiment.py:189-875 | the timeline, setup, trailer stock, sign, rest, driving, overlap and compatibility checks together: silent exactly on schedules that satisfy the stated conditions, an error exactly on a late layover; the tank checks are not among them |
| `RoadefErased.ErasedVisited` | cornflow-dags/DAG/roadef/solvers/Greedy.py:604-722 | a visit commutes with leaving out all quantities: places, times, driving times and shift entries do not depend on them |
| `RoadefErased.ErasedEnded` | cornflow-dags/DAG/roadef/solvers/Greedy.py:724-759 | so does ending a shift |
| `RoadefErased.TimelyIsLinked` | cornflow-dags/DAG/roadef/core/experiment.py:673-808 | where the plan without its quantities satisfies the invariant, the rest and overlap checks find nothing on the plan with them |
| `RoadefErased.VisitedFollows` | cornflow-dags/DAG/roadef/solvers/Greedy.py:604-722 | a visit with any quantity keeps each shift's initial stock what the trailer's previous shift left, and the trailer's stock what its last one leaves |
| `RoadefMoves.VisitedKeeps` | cornflow-dags/DAG/roadef/solvers/Greedy.py:604-722 | a visit the trailer's stock allows keeps the link between a trailer's place, its stock and the entry of its current shift |
| `RoadefMoves.EndedKeeps` | cornflow-dags/DAG/roadef/solvers/Greedy.py:724-759 | ending a shift keeps the invariant: the trailer is at the base exactly when its current shift has no entry |
| `RoadefMoves.PausedKeeps` | cornflow-dags/DAG/roadef/solvers/Greedy.py:362-366 | waiting at the base keeps the invariant |
| `RoadefMoves.OpenedKeeps` | cornflow-dags/DAG/roadef/solvers/Greedy.py:604-640 | creating a shift's entry with its stop at the base keeps the schedule consistent |
| `RoadefGreedy.Greedy.constructor` | cornflow-dags/DAG/roadef/solvers/Greedy.py:225-251 | from an assignment every trailer is at the base at time 0 with its initial stock and a shift id of its own, no one has driven, each tank at each hour holds its initial stock less the consumption up to it, and the last refills are twelve hours past; this state satisfies the invariant |
| `RoadefGreedy.Greedy.InsertCustomer` | cornflow-dags/DAG/roadef/solvers/Greedy.py:604-664 | the delivery move, in turn or not: one stop is added with its times and driving time; what leaves the trailer is in the tank at every hour from the arrival on, until the trailer is empty or the tank full at the hour of arrival; other tanks, trailers and drivers are as before, and the tanks are still those recomputed |
| `RoadefGreedy.Greedy.InsertSource` | cornflow-dags/DAG/roadef/solvers/Greedy.py:666-722 | the loading move: one stop is added, after which the trailer is full; the tanks and all other vehicles are as before |
| `RoadefGreedy.Greedy.InsertBase` | cornflow-dags/DAG/roadef/solvers/Greedy.py:724-759 | the return: the open shift ends with a stop at the base after the travel time, the trailer is free again a rest later and the driver has driven nothing; nothing happens to a trailer without an open shift |
| `RoadefGreedy.Greedy.Pause` | cornflow-dags/DAG/roadef/solvers/Greedy.py:362-366 | exactly the working trailers at the base wait, for exactly the pause |
| `RoadefGreedy.Greedy.DetermineMaxQuantity` | cornflow-dags/DAG/roadef/solvers/Greedy.py:786-799 | the largest quantity that neither the stock nor the room in the tank forbids |
| `RoadefGreedy.Greedy.FindClosestSource` | cornflow-dags/DAG/roadef/solvers/Greedy.py:527-602 | the source is nearest by the detour; the three answers say which ways fit the driving limit |
| `RoadefGreedy.Greedy.LastPossibleVisit` | cornflow-dags/DAG/roadef/solvers/Greedy.py:288-305 | an hour before the first hour, from the last refill, at which the tank is dry; none if there is no such hour |
| `RoadefGreedy.Greedy.ComputeSlack` | cornflow-dags/DAG/roadef/solvers/Greedy.py:434-491 | for every working driver and customer, the slack is how long before the last possible visit the driver arrives and the distance is that from where the trailer is; 0 and -1 where there is no time to return or the last refill is too recent, zeros where the trailer is there already or no visit is needed |
| `RoadefGreedy.Greedy.BackToBase` | cornflow-dags/DAG/roadef/solvers/Greedy.py:307-335 | exactly the drivers without a positive slack go home, each once: one whose trailer is not full loads at the source nearest to it if that leaves time to return, and then ends the shift; so at the base the trailer is full, or has what it had and that source was too far. No one else moves |
| `RoadefGreedy.Greedy.AllTrailersBackToBase` | cornflow-dags/DAG/roadef/solvers/Greedy.py:337-360 | the same of every working trailer that is not at the base, by guarded moves within the limits |
| `RoadefEffects.DeliveryMovesStock` | cornflow-dags/DAG/roadef/solvers/Greedy.py:786-799 | at every hour from the arrival on, what trailer and tank hold together is unchanged by a delivery; the trailer does not go below zero nor the tank at the hour of arrival above its capacity, and one of the two is reached; no earlier hour and no other tank changes |
| `RoadefEffects.DeliveryDelivers` | cornflow-dags/DAG/roadef/solvers/Greedy.py:604-664 | and the schedule has one stop more, at the end of the open shift or of a new one that starts at the base, and the last refill is the arrival |
| `RoadefEffects.LoadingLoads` | cornflow-dags/DAG/roadef/solvers/Greedy.py:666-722 | a loading adds one stop and fills the trailer |
| `RoadefEffects.ReturnReturns` | cornflow-dags/DAG/roadef/solvers/Greedy.py:724-759 | a return with an open shift adds a stop at the base, the rest and a driving time of 0; without one it changes no table |
| `RoadefEffects.PauseWaits` | cornflow-dags/DAG/roadef/solvers/Greedy.py:362-366 | a pause adds its length to the time of the working trailers at the base and to nothing else |
| `RoadefGreedy.AssignOnce` | cornflow-dags/DAG/roadef/solvers/Greedy.py:253-286 | no trailer is given twice, the inverse table undoes the assignment, and a driver is left out only if all of theirs are taken |
| `RoadefChecker.SortPermutes` | cornflow-dags/DAG/roadef/core/experiment.py:464-504 | sorting by departure loses and adds no shift |
| `RoadefChecker.SortAscends` | cornflow-dags/DAG/roadef/core/experiment.py:464-504 | and orders by departure |
| `RoadefChecker.SortIsStable` | cornflow-dags/DAG/roadef/core/experiment.py:464-504 | and keeps shifts with one departure in their order |
| `RoadefChecker.SortedLinked` | cornflow-dags/DAG/roadef/core/experiment.py:464-504 | where each key's shifts are listed by departure, sorting changes nothing of what the linking checks see |
| `RoadefReports.CheckInitialInventory` | cornflow-dags/DAG/roadef/core/experiment.py:464-504 | lists, with both quantities, exactly the shifts that do not start with what the trailer's previous shift left or, if there is none, with its initial stock; one entry for each, in stable order of departure |
| `RoadefReports.CheckIntershift` | cornflow-dags/DAG/roadef/core/experiment.py:673-715 | lists, with the shift before, the rest and the minimum, exactly the shifts before which the driver has not rested, an end at time 0 counting as none; one entry for each, in stable order of departure |
| `RoadefReports.CheckOverlaps` | cornflow-dags/DAG/roadef/core/experiment.py:770-808 | lists, with the shift before, exactly the shifts that depart before the trailer's previous one has ended, an end at time 0 counting as none; one entry for each, in stable order of departure |
| `RoadefReports.CheckTimeline` | cornflow-dags/DAG/roadef/core/experiment.py:189-220 | lists the shift and location of exactly the stops reached earlier than travel and layover allow; one entry for each, in the order of the list |
| `RoadefReports.CheckSetupTime` | cornflow-dags/DAG/roadef/core/experiment.py:250-271 | lists the shift and location of exactly the stops but the last at which setup is not respected; one entry for each, in the order of the list |
| `RoadefReports.CheckTrailerNegative` | cornflow-dags/DAG/roadef/core/experiment.py:340-377 | lists, with the stock, exactly the stops after which a trailer's stock is negative; one entry for each, in the order of the list |
| `RoadefReports.CheckTrailerAboveCapacity` | cornflow-dags/DAG/roadef/core/experiment.py:379-419 | lists, with stock and capacity, exactly the stops after which a trailer's stock exceeds its capacity; one entry for each, in the order of the list |
| `RoadefReports.CheckFinalInventory` | cornflow-dags/DAG/roadef/core/experiment.py:421-462 | always empty: the check compares a sum with itself |
| `RoadefReports.CheckQuantityDelivered` | cornflow-dags/DAG/roadef/core/experiment.py:507-530 | lists, with the quantity, exactly the stops at a source that do not load and at a customer that do not receive; one entry for each, in the order of the list |
| `RoadefReports.CheckCompatibility` | cornflow-dags/DAG/roadef/core/experiment.py:810-834 | lists exactly the shifts whose driver may not drive the trailer; one entry for each, in stable order of departure |
| `RoadefReports.CheckMaxDuration` | cornflow-dags/DAG/roadef/core/experiment.py:847-875 | an error exactly on a layover after the first stop; otherwise lists exactly the shifts with a stop beyond the driving limit, each once with the driving time at the last such stop, a layover at the first stop counting by the driving before it |
| `RoadefExamples.LateLayoverExample` | cornflow-dags/DAG/roadef/core/experiment.py:847-875 | a shift that is on time with its layover, on which the duration check fails |
| `RoadefChecker.GetAuxInfo` | cornflow-dags/DAG/roadef/core/experiment.py:44-77 | the shift with its driving times recounted and nothing else changed, the arrival at its last stop, its initial stock with all its quantities, the time from departure to end, and the driving time from first to last stop |
| `RoadefTanks.CalculateInventories` | cornflow-dags/DAG/roadef/core/experiment.py:112-163 | fails exactly when a delivery falls outside the arrays; otherwise the cumulative sums are, for each hour, initial stock less consumption plus the deliveries landed by then, a negative hour counting from the end |
| `RoadefTanks.LandsWithin` | cornflow-dags/DAG/roadef/core/experiment.py:112-163 | a delivery has a place in the arrays exactly when its hour is within the horizon or that far before 0, and then lands at its hour, a negative one counted from the end |
| `RoadefTanks.CheckSiteExceeds` | cornflow-dags/DAG/roadef/core/experiment.py:622-654 | fails as the recomputation does; otherwise lists, with inventory and capacity, exactly the hours at which a customer, not the first nor a call-in one, is above its capacity, each once with hours ascending by customer |
| `RoadefTanks.CheckSiteNegative` | cornflow-dags/DAG/roadef/core/experiment.py:593-620 | fails likewise; otherwise lists, with the inventory, exactly the hours at which one of these customers is below zero, in the same order |
| `RoadefExamples.SkippedCustomerOverflows` | cornflow-dags/DAG/roadef/core/experiment.py:622-654 | a schedule all per-shift and linking checks and the site check find nothing in, and that overflows the first customer's tank |
| `RoadefLabels.RouteLabel.UpdateLabelTime` | cornflow-dags/DAG/roadef/solvers/RouteLabel.py:68-83 | the locations stay, and each time is the sum of the travel and setup times up to it |
| `RoadefLabels.RouteLabel.InsertLocation` | cornflow-dags/DAG/roadef/solvers/RouteLabel.py:48-52 | the location stands at the position, counted from the end if negative and kept within the list, between the others in their order; every time is a prefix sum, and the cost is that of the last time and of the distance |
| `RoadefLabels.CostIsTimeAndDistance` | cornflow-dags/DAG/roadef/solvers/RouteLabel.py:85-111 | the cost summed step by step is the time on the road and the distance at their rates |
| `RoadefLabels.InsertionDrivesNoLess` | cornflow-dags/DAG/roadef/solvers/RouteLabel.py:48-52 | with the triangle inequality an insertion never shortens the driving |
| `RoadefLabels.ToRoute` | cornflow-dags/DAG/roadef/solvers/MIPModel.py:755-783 | each stop leaves at the label's time and is reached the setup time earlier |
| `RoadefLabels.ConvertedIsOnTime` | cornflow-dags/DAG/roadef/solvers/MIPModel.py:755-783 | the shift of a timed label passes the timeline and setup checks |
| `RoadefLabels.ConvertedDrivesWithin` | cornflow-dags/DAG/roadef/solvers/RouteLabel.py:108-111 | the recounted shift of a label's stops, none with a layover, passes the driving check exactly when the label's driving duration is within the limit |
| `RoadefConverted.ConvertedIsProcessable` | cornflow-dags/DAG/roadef/solvers/MIPModel.py:755-783 | the shift of a timed label from the base to the base, feasible in stock, signs and compatibility, is one the post-processing is meant for |
| `RoadefConverted.FinalScheduleIsSilent` | cornflow-dags/DAG/roadef/solvers/MIPModel.py:735-877 | of such shifts, linked in stock, rest and overlap, post-processing makes a schedule the per-shift and linking checks find nothing in, with no tank lower at any hour |
| `RoadefLabels.KPosition` | cornflow-dags/DAG/roadef/solvers/MIPModel.py:721-733 | the k-th visit to a location, none exactly when there are not k |
| `RoadefLabels.KthVisitIsOne` | cornflow-dags/DAG/roadef/solvers/MIPModel.py:721-733 | no two stops are the k-th visit |
| `RoadefLabels.SetQuantity` | cornflow-dags/DAG/roadef/solvers/MIPModel.py:792-802 | exactly the k-th visit gets the quantity |
| `RoadefPostProcess.RemoveIdle` | cornflow-dags/DAG/roadef/solvers/MIPModel.py:835-842 | what is left after deletions at the shifting index is exactly the stops at the base or with a quantity, in their order |
| `RoadefPostProcess.RetimeSteps` | cornflow-dags/DAG/roadef/solvers/MIPModel.py:847-871 | a base stop is as before; every other stop is reached the travel time, and the layover if there is one, after the stop before it is left, is left after its setup and has the driving time of the stop before plus the travel; a first stop off the base counts from the last one |
| `RoadefPostProcess.PostProcess` | cornflow-dags/DAG/roadef/solvers/MIPModel.py:819-877 | for known drivers and any routes the result has, in order and under the ids from 1, exactly the shifts that lost no stop or have more than two left; one that lost a stop has the kept stops in order, each timed from the one before it, and the others are as before; its tanks are summed up, which fails exactly when a delivery falls outside the arrays |
| `RoadefPostProcess.ProcessedReplaces` | cornflow-dags/DAG/roadef/solvers/MIPModel.py:819-877 | the same of the result as a function of the shifts, with where each of them comes from |
| `RoadefPostProcessSafety.PostProcessKeepsSilent` | cornflow-dags/DAG/roadef/solvers/MIPModel.py:819-877 | with the triangle inequality, a schedule that the timeline, setup, trailer stock, sign, compatibility, rest, overlap and initial-stock checks find nothing in stays so, whichever shifts are dropped; the tank checks are not among them |
| `RoadefPostProcessSafety.PostProcessKeepsDriving` | cornflow-dags/DAG/roadef/solvers/MIPModel.py:819-877 | nor does any recounted driving time exceed its limit |
| `RoadefPostProcessTanks.NoTankIsLower` | cornflow-dags/DAG/roadef/solvers/MIPModel.py:819-877 | at every hour a customer's recomputed tank is what it was plus what now arrives by then and did not before, which is never negative |
| `RoadefPostProcessTanks.RunOutsGainNothing` | cornflow-dags/DAG/roadef/core/experiment.py:593-620 | a customer that never ran dry does not run dry after post-processing |
| `RoadefPostProcessTanks.CapacityKeptIff` | cornflow-dags/DAG/roadef/core/experiment.py:622-654 | a tank that never overflowed does not overflow afterwards exactly when, at every hour, what is advanced into it fits the room the old tank had |
| `RoadefPostProcessTanks.SiteCheckStaysSilentIff` | cornflow-dags/DAG/roadef/core/experiment.py:622-654 | the site-capacity check stays silent exactly when that holds of every customer it looks at |
| `RoadefPostProcessTanks.RoomKeepsCapacity` | cornflow-dags/DAG/roadef/solvers/MIPModel.py:819-877 | a tank with room at every hour for all that shifts with an idle stop bring later stays within capacity, whatever the new times |
| `RoadefExamples.AdvancedDeliveryOverflows` | cornflow-dags/DAG/roadef/solvers/MIPModel.py:819-877 | a schedule silent in all checks, that one included, after whose post-processing that one reports an overflow |
| `RoadefPostProcessQuantities.PostProcessLosesTheDropped` | cornflow-dags/DAG/roadef/solvers/MIPModel.py:819-877 | each location gets what it got before less what the dropped shifts brought it |
| `RoadefPostProcessQuantities.QuantitiesSurviveIff` | cornflow-dags/DAG/roadef/solvers/MIPModel.py:873-874 | the quantities of a shift survive exactly when it stays or the at most two stops kept of it bring nothing |
| `RoadefPostProcessQuantities.PostProcessKeepsQuantities` | cornflow-dags/DAG/roadef/solvers/MIPModel.py:819-877 | so on routes from base to base every location gets the same quantity in all |
| `RoadefExamples.DroppedDelivery` | cornflow-dags/DAG/roadef/solvers/MIPModel.py:873-874 | on a valid instance, a schedule silent in the per-shift and linking checks whose one delivery goes with its shift, which does not return |
| `RoadefPostProcessSafety.KeptStock` | cornflow-dags/DAG/roadef/solvers/MIPModel.py:835-842 | a kept stop is at the place the kept stops before it give it, unchanged, and after it the trailer holds exactly what it held there before |
| `RoadefPostProcessSafety.KeptInOrder` | cornflow-dags/DAG/roadef/solvers/MIPModel.py:835-842 | kept stops keep their order |
| `RoadefPostProcessSafety.CleanedStock` | cornflow-dags/DAG/roadef/solvers/MIPModel.py:835-871 | and so it is in the cleaned shift, whatever its new times: same location, quantity and stock |
| `RoadefPostProcessSafety.RetimedOnTime` | cornflow-dags/DAG/roadef/solvers/MIPModel.py:847-871 | the new times pass the timeline check, no stop being left later than before |
| `RoadefPostProcessSafety.KeptDrivesNoMore` | cornflow-dags/DAG/roadef/solvers/MIPModel.py:847-871 | leaving stops out never adds driving |
| `RoadefPostProcessSafety.SurvivorsSorted` | cornflow-dags/DAG/roadef/solvers/MIPModel.py:819-877 | dropping and cleaning commute with the checks' stable sort |
| `RoadefSolutionTables.RoundTrip` | cornflow-dags/DAG/roadef/core/solution.py:16-67 | a solution is read back from its tables, rows in any order, exactly when no shift is empty; else the error names an empty shift |
| `RoadefSolutionTables.ToDict` | cornflow-dags/DAG/roadef/core/solution.py:16-46 | one row for each shift with its own driver, trailer, departure and initial quantity and its number of stops; one row for each stop with its day and position, in order |
| `RoadefSolutionTables.FromDict` | cornflow-dags/DAG/roadef/core/solution.py:48-67 | an error exactly when a shift has no row among the stops; otherwise each shift has the columns of its row, and the stops of its rows by position |
| `RoadefSolutionTables.RowsOfAreTheLatest` | cornflow-dags/DAG/roadef/core/solution.py:51-60 | the rows used for a shift are, by position, exactly those that no later row of the same shift and position replaces |
| `RoadefSolutionTables.EmptyRouteExample` | cornflow-dags/DAG/roadef/core/solution.py:16-67 | one empty shift, written, cannot be read back |
| `RoadefSolutionTables.RowsOfAreItsRows` | cornflow-dags/DAG/roadef/core/solution.py:51-60 | the rows read for a shift are its rows, by position |
| `RoadefSolutionTables.OrderIsUnique` | cornflow-dags/DAG/roadef/core/solution.py:51-60 | only one listing of the same rows is in order of position |
| `RoadefInstanceTables.RoundTrip` | cornflow-dags/DAG/roadef/core/instance.py:66-117 | reading back succeeds, and gives the same data exactly when there are coordinates, forecasts are dense and no source and customer with one id list trailers |
| `RoadefInstanceTables.TablesHaveLists` | cornflow-dags/DAG/roadef/core/instance.py:94-117 | each table of time windows, orders and trailers has exactly the listed values, each under its own entity's id; the forecast table exactly the positive entries with their hours |
| `RoadefInstanceTables.TablesHaveEntities` | cornflow-dags/DAG/roadef/core/instance.py:94-117 | and the main tables have one row for each entity with its own values, in order |
| `RoadefInstanceTables.FromDict` | cornflow-dags/DAG/roadef/core/instance.py:66-92 | an error exactly when there is no base or a forecast row is of an unknown customer; otherwise each entity has the values of its last row and, in order, those of the rows with its id in the other tables |
| `RoadefInstanceTables.ReadBackIsWritten` | cornflow-dags/DAG/roadef/core/instance.py:66-117 | the same of anything read from the written tables |
| `RoadefInstanceTables.IndexedIsDictionary` | cornflow-dags/DAG/roadef/core/tools.py:159-160 | reading a main table keeps each key once, with the value of its last row, and leaves rows with distinct keys as they are |
| `RoadefInstanceTables.ReadForecasts` | cornflow-dags/DAG/roadef/core/tools.py:56-68 | each hour of the horizon gets the sum of its positive rows; a row of an unknown customer is an error |
| `RoadefInstanceTables.ForecastRoundTrip` | cornflow-dags/DAG/roadef/core/tools.py:207-212 | a forecast is recovered exactly when it has an entry for each hour and none is negative |
| `RoadefInstanceTables.GroupOfFlattened` | cornflow-dags/DAG/roadef/core/tools.py:154-171 | grouping by id gives each entity its own values back, in order |
| `KnapsackDynamic.EntryIsBest` | cornflow-dags/DAG/knapsack/solvers/DynamicSolver.py:50-81 | every entry of the recurrence is the best value over all selections of the first items within the weight |
| `KnapsackDynamic.DynamicSolver.FillRow` | cornflow-dags/DAG/knapsack/solvers/DynamicSolver.py:50-81 | the loop over a row makes both tables hold the recurrence and its choices |
| `KnapsackDynamic.DynamicSolver.TraceBack` | cornflow-dags/DAG/knapsack/solvers/DynamicSolver.py:83-104 | the traceback reads the recurrence's selection off the table and never meets a negative capacity |
| `KnapsackDynamic.DynamicSolver.DynSolver` | cornflow-dags/DAG/knapsack/solvers/DynamicSolver.py:38-114 | the selection fits and has the best value of all |
| `KnapsackDynamic.BestReorderedIsOptimal` | cornflow-dags/DAG/knapsack/solvers/DynamicSolver.py:21-34 | a best selection of the sorted items, put back in order, is optimal in the original numbering |
| `KnapsackDynamic.DynamicSolver.Solve` | cornflow-dags/DAG/knapsack/solvers/DynamicSolver.py:15-36 | whatever order ties are sorted in, the ids kept are an optimal solution of the instance |
| `Permutations.ArgsortOfPermutationIsInverse` | cornflow-dags/DAG/knapsack/solvers/DynamicSolver.py:21-34 | an order sorts a permutation exactly when it is its inverse |
| `KnapsackGreedy.EarlyExitLosesExactlyTheExactFill` | cornflow-dags/DAG/knapsack/solvers/Heuristic.py:21-40 | the pass leaves out an item that fits exactly when some item of smallest weight would fill the room exactly; otherwise it takes what a full scan takes |
| `KnapsackGreedy.EarlyExitExample` | cornflow-dags/DAG/knapsack/solvers/Heuristic.py:21-40 | the smallest such input |
| `KnapsackGreedy.PassIsFeasible` | cornflow-dags/DAG/knapsack/solvers/Heuristic.py:21-40 | in any order a pass fits, and leaves no more room than the weight of any item left out |
| `KnapsackGreedy.GreedyScans` | cornflow-dags/DAG/knapsack/solvers/Heuristic.py:21-40 | the pass takes an item exactly when it fits what the items taken before it leave and the smallest weight of all is below that |
| `KnapsackGreedy.Heuristic.Fill` | cornflow-dags/DAG/knapsack/solvers/Heuristic.py:21-40 | the loop takes exactly the items the description of the pass says |
| `KnapsackGreedy.Heuristic.SolveDirect` | cornflow-dags/DAG/knapsack/solvers/DirectHeuristic.py:10-38 | the ids included are, in increasing order, those of the items a scan in the sorted order takes |
| `KnapsackGreedy.Heuristic.SolveRandom` | cornflow-dags/DAG/knapsack/solvers/RandomHeuristic.py:12-88 | the result is the first of the passes than which none has a larger objective, those before it having a smaller one |
| `KnapsackGreedy.PassesByShuffle` | cornflow-dags/DAG/knapsack/solvers/RandomHeuristic.py:12-88 | those passes are one in the sorted order and one after each shuffle, over the items as all the shuffles so far leave them |
| `KnapsackGreedy.BestPassIsFeasible` | cornflow-dags/DAG/knapsack/solvers/RandomHeuristic.py:66-83 | that best fits and is no worse than the direct heuristic |
| `Knapsack.SumOfIds` | cornflow-dags/DAG/knapsack/core/experiment.py:30-41 | the objective and weight of the listed ids are those of the selection they denote |
| `CaseTree.EveryRunRepresents` | cornflow-server/cornflow/models/case.py:113-271 | after every run of creations, moves, patches and deletions the stored paths are those of the forest of parent pointers |
| `CaseTree.QuerySelectsDescendants` | cornflow-server/cornflow/models/case.py:75-82 | the LIKE query selects exactly the proper descendants |
| `CaseTree.DepthCountsAncestors` | cornflow-server/cornflow/models/case.py:109-111 | the depth is the number of ancestors plus one |
| `CaseTree.MoveReparents` | cornflow-server/cornflow/models/case.py:258-271 | a move outside the subtree changes that one parent pointer and no path outside the subtree |
| `CaseTree.MoveKeepsForestIff` | cornflow-server/cornflow/models/case.py:258-271 | a move leaves paths of some forest exactly when the new parent is neither the case nor a descendant of it |
| `CaseTree.MoveUnderItself` | cornflow-server/cornflow/models/case.py:258-271 | on a reached table a folder can be moved under itself, and then the paths fit no forest |
| `CaseTree.MoveKeepsFoldersIff` | cornflow-server/cornflow/models/case.py:258-271 | where every parent is a folder, a move keeps it so exactly when the new parent is one |
| `CaseTree.RunStaysInFoldersIff` | cornflow-server/cornflow/models/case.py:145-271 | every parent is a folder throughout a run of creations, moves, patches and deletions exactly when every creation and every move names one and every patch leaves a folder, or a case without descendants |
| `CaseTree.PatchKeepsFoldersIff` | cornflow-server/cornflow/models/case.py:177-201 | where every parent is a folder, a patch of the data keeps it so exactly when it leaves a folder, or the case has no descendants |
| `CaseTree.MoveUnderData` | cornflow-server/cornflow/models/case.py:258-271 | on a reached table a move puts a folder under a case with data |
| `CaseTree.DeleteRemovesSubtree` | cornflow-server/cornflow/models/case.py:222-228 | deletion removes exactly the subtree and leaves a forest |
| `CaseTree.CreateAddsLeaf` | cornflow-server/cornflow/models/case.py:113-123 | a new case is a leaf under its parent |
| `CaseTree.TableDeterminesForest` | cornflow-server/cornflow/models/case.py:113-123 | the paths stand for one forest only |
| `CaseTree.CaseTable.FromParentId` | cornflow-server/cornflow/models/case.py:145-175 | the errors for a missing parent and for one that is no folder; otherwise the row and pointer are added, the path is empty or the parent's path with its id in decimal and "/" after it, and parents stay folders |
| `CaseTree.CaseTable.MoveTo` | cornflow-server/cornflow/models/case.py:258-271 | the loop rewrites exactly the subtree's paths, the moved case's to the new parent's path with that one's id in decimal and "/" after it; the table stays a forest exactly when the move is outside the subtree, and parents stay folders exactly when the new one is |
| `CaseTree.CaseTable.Patch` | cornflow-server/cornflow/models/case.py:177-201 | a patch that applies sets whether the case is a folder and changes no path and no other row; one that does not apply changes nothing |
| `CaseTree.CaseTable.Delete` | cornflow-server/cornflow/models/case.py:222-228 | the loop removes exactly the case and its descendants |
| `CasePaths.ChildPathIsInjective` | cornflow-server/cornflow/models/case.py:113-123 | a path determines the parent's path and id |
| `CasePaths.StrIsDecimal` | cornflow-server/cornflow/models/case.py:113-123 | an id is written in digits that stand for it, without leading zeros |
| `CasePaths.DecimalIsStr` | cornflow-server/cornflow/models/case.py:113-123 | and no other string of digits is so |
| `CasePaths.ClosedPrefix` | cornflow-server/cornflow/models/case.py:75-82 | the encoding is prefix-safe |
| `CasePaths.LikeIsPrefix` | cornflow-server/cornflow/models/case.py:75-82 | LIKE with a final % is the prefix test on text without wildcards |
| `SubclassSearch.AllSubclasses` | cornflow-server/cornflow/shared/utils_tables.py:34-70 | terminates on any finite class graph, enqueues each class once, and returns the classes reached by one or more subclass steps, and the class itself exactly when the models list it |
| `SubclassSearch.Search` | cornflow-server/cornflow/shared/utils_tables.py:49-66 | the breadth-first loop finds exactly the reachable classes |
| `TspTour.ExtractTour` | cornflow-dags/DAG/tsp/solvers/cp_model.py:50-65 | the loop ends for any one-to-one successor map with the cycle of its first node, positions from 0 |
| `TspTour.CompleteIffNoSubtour` | cornflow-dags/DAG/tsp/core/experiment.py:41-44 | no node is missing exactly when the successor map has no subtour |
| `TspTour.TourIsComplete` | cornflow-dags/DAG/tsp/core/experiment.py:41-49 | then each node is listed once and both missing checks are empty |
| `TspTour.ObjectiveIsChosenWeight` | cornflow-dags/DAG/tsp/core/experiment.py:27-39 | the route's objective is the weight of the chosen arcs |
| `TspTour.SortSorts` | cornflow-dags/DAG/tsp/core/experiment.py:27-39 | sorting the rows by position loses and adds none, puts them in order and keeps those of one position in theirs |
| `TspTour.ObjectiveInAnyOrder` | cornflow-dags/DAG/tsp/core/experiment.py:27-39 | so the objective is that weight in whatever order the rows of the route are listed |
| `TspTour.MissingMeans` | cornflow-dags/DAG/tsp/core/experiment.py:41-49 | of any route, the missing nodes and positions are those of the instance that no row has |
| `FacilityFlow.Conservation` | cornflow-dags/DAG/facility_location/core/experiment.py:144-203 | what clients receive is what suppliers send plus what warehouses give out beyond what they take in |
| `FacilityFlow.WarehousesBalance` | cornflow-dags/DAG/facility_location/core/experiment.py:144-173 | the warehouse check reports exactly the warehouses, days and products for which what leaves is not what enters, and by how much it is more; empty exactly when there are none |
| `FacilityFlow.SuppliersBalance` | cornflow-dags/DAG/facility_location/core/experiment.py:175-203 | the supplier check reports exactly the days and products for which clients do not receive what suppliers send, and by how much it is more; empty exactly when there are none |
| `FacilityFlow.SuppliersBalanceIff` | cornflow-dags/DAG/facility_location/core/experiment.py:144-203 | the supplier check is empty exactly when, by day and product, the warehouses' surpluses cancel out |
| `FacilityFlow.WarehousesBalanceIff` | cornflow-dags/DAG/facility_location/core/experiment.py:144-203 | the warehouse check is empty exactly when the supplier check is and no warehouse gives out more than it takes in |
| `FacilityFlow.BalancedWarehousesBalanceSuppliers` | cornflow-dags/DAG/facility_location/core/experiment.py:144-203 | an empty warehouse check implies an empty supplier check |
| `FacilityFlow.BalancedSuppliersAreNotEnough` | cornflow-dags/DAG/facility_location/core/experiment.py:144-203 | but not conversely |
| `FacilityFlow.WarehouseConstraintsImplySuppliers` | cornflow-dags/DAG/facility_location/solvers/PyomoSolver.py:141-181 | the warehouses' constraints imply the suppliers' one, by exchanging the level-restricted double sum |
| `AccessCommands.Database.AccessInit` | cornflow-server/cornflow/commands/access.py:13-33 | the run settles roles, views and permissions exactly when no disabled row is in the way; on settled tables it changes nothing |
| `AccessCommands.Database.RegisterRoles` | cornflow-server/cornflow/commands/roles.py:1-47 | every referenced role is live afterwards under its name, custom roles under the name made of their id, unless a disabled row holds its id, and then nothing is added; no other row is added or changed |
| `AccessCommands.Database.RegisterViews` | cornflow-server/cornflow/commands/views.py:17-168 | the views are those the code declares, kept ones under their ids, unless a disabled permission refers to a view to delete |
| `AccessCommands.Database.RegisterPermissions` | cornflow-server/cornflow/commands/permissions.py:17-66 | the roles or the endpoint an error names are ones the code refers to and does not define; when the inserts are accepted, and the rows that result |
| `AccessCommands.PermissionTuples` | cornflow-server/cornflow/commands/permissions.py:155-175 | the loops collect the tuples, and fail exactly when a view lookup is undefined, with an endpoint that is |
| `AccessCommands.TuplesAreAllowed` | cornflow-server/cornflow/commands/permissions.py:155-212 | once the views agree with the code, the tuples are exactly what the code allows |
| `AccessCommands.CommitsIffUnblocked` | cornflow-server/cornflow/commands/permissions.py:88-152 | the inserts are accepted exactly when no disabled row holds a permission the code grants |
| `AccessCommands.SettledIsUnblocked` | cornflow-server/cornflow/commands/access.py:13-33 | settled tables have no disabled row in the way |
| `AccessCommands.DisabledPermissionBlocks` | cornflow-server/cornflow/commands/permissions.py:137-152 | one viewer's permission, disabled: the smallest table the run cannot settle |

## Left out

- `Greedy.solve` as a whole: its loop need not end, slack entries go stale after
  `back_to_base`, and the guards at lines 104 and 149 compare with the horizon
  plus one; the moves it makes and the guards they need are modelled instead.
- `positive_argmin`, `demand_1d`, `max_demand`, `determine_quantity`: which driver
  and quantity the loop prefers does not matter to the invariants.
- `day` of a current shift: it is written and never read.
- Quantities, times and values are integers: floating point and rounding are not
  modelled.
- Numpy arrays, dictionaries and lists are kept as sequence and map fields that
  methods reassign, so aliasing between them is not captured; the knapsack's two
  tables are arrays. Iteration over a dictionary or set takes any order.
- Random choices and sorts with ties are parameters: any assignment, any shuffle,
  any argsort; so is the order by value per weight that the direct heuristic takes.
  The best-so-far of the random heuristic has no time limit here.
- The time-window, accessibility, order and cost checks of the ROADEF experiment:
  each compares one stop with constants of the instance.
- `RouteLabel.breaks_constraints_to_insert` subscripts an object that has no
  subscript and always fails; the comparisons of labels are single expressions.
- `hour_of_visit` and the other domains of the MIP model, and the equality of its
  inventory constraint with `calculate_inventories`: the constraint uses
  departure hours, the recomputation arrival hours.
- `post_process` takes each stop's `cumulated_driving_time` as present. A base
  stop keeps its old one, so the stored driving times after a removal are only
  right once they are counted again.
- Instance tables: a negative time in a forecast row is not modelled.
- Cases: ownership, the data and its hash, the relationship cache and
  the 500-character limit of the path column.
- JSON patches: whether one applies, and whether it leaves the data null, are
  parameters.
- Access: loading the external application, the actions table (its five actions
  are taken as registered), log messages and the reset of sequences. Whether a
  refused insert is logged or raised does not change what that command leaves;
  where it is logged, the source goes on to the next command and `AccessInit`
  stops.
- Pyomo, PuLP and OR-Tools: what they return is a premise, such as a one-to-one
  successor map or flows that satisfy the constraints.
- `column_generation.py`, rostering, endpoints, schemas, the clients and the
  Airflow files.
- RoadefGreedy.AssignOnce: one pass of `assign_drivers_and_trailers`; the source
  repeats passes until one is acceptable, which need not happen.
- AccessCommands.Database.RegisterViews: requires distinct endpoint names; two new
  resources with one name break the unique constraint in the source.
- KnapsackGreedy.Heuristic.SolveDirect: the three heuristic classes are one class
  here, as Dafny classes cannot inherit from one another.
