# The medicine delivery simulation

The program simulates planes that deliver medicine. A map process knows the cities and what they ask for; airline
processes own planes, one thread each; a turn has two phases. In the first phase every plane on the ground unloads in the
city it is in. In the second it asks the map where to go next and leaves or retires, while a plane in the air comes one
unit nearer. Everything travels over bounded queues, and each airline reports to the map once per phase.

This project models the build without a user interface (`NO_CURSES`) and proves what it promises:

* **The delivery arithmetic** (`Delivery`, `Answers`, `MapKernel`): the unload exchange, the usefulness score, the ten best
  cities, and what all of that means in amounts, scores and distances alone. The map's code works in place on stock objects
  and on the candidate array, and is proved against functions on values.
* **Distances** (`Floyd`): the in-place closure of the road matrix, in which 0 off the diagonal means "no road".
* **Turns and whole runs** (`Turns`, `Runs`): conservation, sound retirement and a bound on how long planes stay busy.
* **When every city ends up satisfied** (`Surplus`, `Shortage`, `Configuration`): the exact condition on what the planes start
  with, and that on the map alone.
* **The interleaved protocol** (`Protocol`, `ProtocolInvariant`, `ProtocolControl`, `ListenerControl`, `MapControl`,
  `ProtocolTraffic`, `ProtocolBooks`, `ProtocolRefinement`, `ProtocolDuties`, `ProtocolProgress`,
  `ProtocolTermination`, `ProtocolOutcome`, `ProtocolStop`, `ProtocolWaiting`): every schedule of map, listeners and plane
  threads refines the turn-by-turn simulation, obeys the stop signal, is never stuck, and comes to a clean end with what the
  simulation says.
* **The queues underneath**: the shared-memory queue (`SharedTable`, `SharedTableInPlace`, `SharedQueue`) and the mailboxes
  (`Ring`, `RingInPlace`, `MessageQueue`), each a critical section in place and a system of threads around it. Both are
  shown to step as a bounded queue does (`Fifo`), which is how the protocol's steps use their channels (`ProtocolChannels`).
* **Data on its way** (`Products`, `StockMessages`): product interning, and the stock message with its round trip.
* **From the files on** (`Parser`, `ParserInPlace`, `Printing`, `Startup`, `EndToEnd`): what the two configuration file
  parsers, with the name they read one too far, make of any file; that printed files come back; the state and the
  interleaved execution that the files of a configuration start; and what becomes of it, in terms of the files.

## Where the code does not do what is meant

* `updateMap` has no "not found" case: an item the city does not list is exchanged against the *last* entry of the city's
  list. The model does exactly that. `Delivery.MisdeliveryExample` shows goods changing product, and
  `Delivery.ExactIffNothingMisdelivered` and `Delivery.ExactIffMatching` say precisely when that happens. The total balance
  is always kept; that of every single product is kept throughout a run exactly when all its unloads are exact
  (`Turns.ExactRunIffBalanced`).
* Hence doc/informe.tex:302-303 promises too much: supply that suffices does not always satisfy every city
  (`Runs.EnoughMayNotBeEnough`). What can get lost of a product is at most what the last entries of the cities ask for that
  do not list it. Goods are *ample* when, of every product that is asked for, the planes carry what is asked for and that
  much more. By the time all planes have retired, enough goods in loads without repetition have satisfied every city in every
  run, however they or more are spread over planes and cities, if and only if they are ample (`Shortage.SatisfiedIffAmple`).
  The maps on which enough is always ample are those on which every city whose last entry asks for something lists every
  product that is asked for (`Shortage.SatisfiedIffTolerant`). No map in configFiles is of that kind, but the goods of sim2,
  sim3 and sim4 are ample, as `Configuration.Sim2IsAmple` shows for sim2; those of sim1 are not, for want of DulcolaxPerlas
  and Curare. A last entry that asks for nothing, added to every city, turns the code into the exchange that is meant
  (`Delivery.LastEntryGuards`), on any map and with just enough supply (`Surplus.GuardedIsSatisfied`).
* The score looks at the first entry of a product in the plane's load only, while the unload serves every entry. A plane that
  has emptied the first of two entries for the same product scores 0 where the second is asked for, retires with it, and the
  city is never served: `Runs.RepeatedLoadIsStranded` is such a start, with enough of every product and every item listed.
  `Delivery.WantsNothingIff` and `Runs.RetirementInGoods` say precisely when goods are overlooked in this way; loads without
  repetition never are. The parser accepts a load that repeats a product, and configFiles/sim4/airline_2 has one;
  doc/informe.tex assumes there is none.
* A city with an empty list has no last entry: unloading anything there reads an unset pointer (`Delivery.UnloadIsDefinedIff`,
  `Turns.EmptyCityExample`). Every unload of every run is defined if and only if no plane with stocks starts in such a city,
  or nothing is asked for at all (`Turns.DefinedIffReady`): a plane never flies to one, because its score there is 0.
* A map file without roads leaves the last product name in the buffer, which is then taken for the name of a city. A printed
  map is read back exactly when it has a road, or has several cities of which the last asks for nothing
  (`Printing.ParsePrint`; `Parser.AnyMap` for files of any form). In particular no map of a single city can be read unless it
  has a road to itself.
* An airline file that does not begin with a number is an airline without planes, and planes that are announced but not
  listed are empty and stand where the last listed one does (`Parser.AnyAirline`). Cities that are announced but not listed
  have no name, and a search that comes to one of them finds nothing (`Parser.AnyCities`, `Parser.NotFoundIff`).
* The shared-memory queue uses length 0 for "free": a message of length 0 breaks its table
  (`SharedTable.WriteValidIffNotEmpty`). No message of the program is empty.
* `turn++` stands inside the arguments of a log call and always happens (src/app/map.c:67); `MapStarts` counts the turn there.
* `stockDelta` holds new amounts, not differences (src/app/plane.c:92).

## How the protocol steps map to the code

| step | source |
|---|---|
| `MapStops`, `MapStarts` | src/app/map.c:55-68, src/app/map.c:155-169 |
| `MapSends`, `MapHasSent` | src/communication/map.c:32-71 |
| `MapCountsReport`, `MapRejects` | src/app/map.c:70-89, src/app/map.c:94-114 |
| `MapServes`, `MapAnswers`, `MapReplies` | src/app/map.c:78-85, src/app/map.c:106-110 |
| `MapContinues`, `MapEndsTurn` | src/app/map.c:91-94, src/app/map.c:114-120 |
| `ListenerHears`, `ListenerHearsEnd`, `ListenerForwards` | src/app/airline.c:96-155 |
| `ListenerLocks`, `ListenerCounts`, `ListenerCounted`, `ListenerReports`, `ListenerUnlocks` | src/app/airline.c:168-187, src/app/airline.c:202-218 |
| `ListenerBroadcasts`, `ListenerBroadcasted` | src/app/airline.c:157-166 |
| `ListenerEnds`, `ListenerEnded`, `ListenerJoins` | src/app/airline.c:56-66 |
| `PlaneSteps`, `PlaneContinues` | src/app/plane.c:32-45, src/communication/plane.c:36-44 |
| `PlaneUnloads`, `PlaneTakesStock` | src/app/plane.c:68-107, src/communication/plane.c:46-61 |
| `PlaneAsks`, `PlaneChooses` | src/app/plane.c:47-60, src/communication/plane.c:11-34 |
| `PlaneLocks`, `PlaneReports`, `PlaneReleases` | src/app/airline.c:189-200, src/app/plane.c:40-44, src/app/plane.c:62 |
| `PlaneBails`, `PlanePeeksEnd` | src/app/plane.c:7-20 |

## Model

| member | source | states |
|---|---|---|
| Delivery.UnloadConserves | src/app/map.c:189-223 | an unload only lowers amounts, never below zero, keeps products and order, and keeps demand minus load |
| Delivery.UnloadIsDefinedIff | src/app/map.c:197-219 | an unload never uses an unset entry if and only if the city lists something or the plane nothing, and is then the exchange of the other rows |
| Delivery.UnloadSettles | src/app/map.c:195-220 | in amounts alone: every entry of the city is left with what it asked for less all that was aimed at it, items the city does not list being aimed at its last entry, or with 0; an item keeps something only if its entry is left with 0, and then what the items before it did not use up of the entry |
| Delivery.LeftOverIffExhausted | src/app/map.c:209-219 | an item stays aboard in part if and only if the items up to it bring more than its entry asked for |
| Delivery.ExactIffNothingMisdelivered | src/app/map.c:198-220 | an unload keeps the balance of every single product if and only if no loaded, unlisted item finds the last entry still open when its turn comes |
| Delivery.ExactIffMatching | src/app/map.c:198-220 | an unload is exact if and only if it does what is meant, leaving unlisted items on the plane |
| Delivery.LastEntryGuards | src/app/map.c:198-220 | with a last entry that asks for nothing, the code does what is meant on every load without that entry's product |
| Delivery.LastEntryScoresNothing | src/app/map.c:295-314 | such an entry changes no score |
| Delivery.MisdeliveryExample | src/app/map.c:198-220 | a concrete unload that moves one product into the demand for another |
| Delivery.ScoreZeroIff | src/app/map.c:295-314 | a score is between 0 and the city's demand, and 0 exactly when no entry can take anything of the load |
| Delivery.ScoreMonotone | src/app/map.c:295-314 | a score never grows while demand only shrinks |
| Delivery.UnloadLeavesNoUse | src/app/map.c:189-223 | after unloading, the plane's score in the city it is in is 0, misdeliveries included |
| Delivery.PositiveScoreDelivers | src/app/map.c:189-223 | a plane that lands where its score is positive lowers the city's demand |
| Delivery.ScoreIsDelivered | src/app/map.c:295-314 | a score is at most what an unload delivers in that city, and exactly that for a load that repeats no product and an exact unload |
| Delivery.ScoreIsMeant | src/app/map.c:295-314 | for a load that repeats no product the score is what an exchange that skips unlisted items delivers |
| Delivery.ScoreOfEntry | src/app/map.c:301-311 | one entry adds the smaller of what it asks for and what the first item for its product holds; with `ScoreAdds` this is the score of any load |
| Delivery.WantsNothingIff | src/app/map.c:295-314 | a city asks for nothing a plane carries if and only if the score is 0 and no product asked for is repeated behind a first entry that is empty |
| Delivery.UniqueWantsNothingIff | src/app/map.c:295-314 | for a load that repeats no product a score of 0 means just that |
| Delivery.InsertKeepsBest | src/app/map.c:267-289 | entering one more candidate keeps a best-ten list best, for the candidates seen so far |
| Delivery.InsertIntoFull | src/app/map.c:267-289 | ten entries are kept; a candidate no better than any of them changes nothing, and a better one takes the place of the first of the lowest |
| Delivery.KeptIsBestTen | src/app/map.c:234-248 | after the scan the table holds min(10, cities that do not score 0) different such cities with their own score and distance, and no other city scores higher than a kept one |
| Delivery.AnswerMeaning | src/app/map.c:225-265 | the answer is empty exactly when every city scores 0; otherwise its first entry is a city with a positive score, nearest among the kept ones |
| Answers.ScannedInOrder | src/app/map.c:234-248 | the cities are looked at in order, each appended, exchanged or forgotten as it comes |
| Answers.AnswerIsTenBest | src/app/map.c:225-265 | every reply lists ten cities, or all there are, where the load scores, each once with its own score and distance, the nearest first, and no other city scores higher than a listed one |
| Answers.NearestOfAll | src/app/map.c:225-265 | with at most ten cities where the load scores all of them are listed, and none is nearer than the first |
| Delivery.SortedIsSorted | src/app/map.c:250-293 | one arrangement of the kept entries by distance; the answer may be any |
| MapKernel.SelectEntry | src/app/map.c:198-207 | the search loop ends at the first entry for the product, or at the last entry when there is none; an empty list leaves the entry unset |
| MapKernel.Exchange | src/app/map.c:209-219 | both amounts after an exchange |
| MapKernel.ServeItem | src/app/map.c:197-219 | one item and the first entry for its product, or else the last entry, change in place by the smaller of their amounts, and nothing else in the two lists; without an entry nothing changes |
| MapKernel.UpdateCity | src/app/map.c:195-220 | the loop over the plane's items turns both lists, in place, into what the unload on values says, settled as in `Delivery.UnloadSettles`, and fails exactly when that is undefined |
| MapKernel.Map.UpdateMap | src/app/map.c:189-223 | the same for any city of the map; no other city changes |
| MapKernel.GetCityScore | src/app/map.c:295-314 | the nested loops compute the score |
| MapKernel.InsertScore | src/app/map.c:267-289 | the place given to a score: the next free one, else the first lowest entry if it is beaten, else none; no other place changes |
| MapKernel.Consider | src/app/map.c:241-246 | the table after one candidate, in place |
| MapKernel.Map.ConsiderCity | src/app/map.c:236-247 | a city is entered exactly when its score is not 0 |
| MapKernel.Map.ScanCities | src/app/map.c:234-248 | after the loop the table is that of all cities |
| MapKernel.Map.GiveDestinations | src/app/map.c:225-265 | the reply is the ten best cities arranged by distance, as in `Answers.AnswerIsTenBest` |
| MapKernel.Map.EndSimulation | src/app/map.c:155-169 | the simulation stops exactly at turn 70000 or when no city asks for anything |
| MapKernel.Map.HasNoStocks | src/app/map.c:171-184 | true exactly when every amount is 0 |
| MapKernel.Map.GetMapStatus | src/app/map.c:329-356 | the nested loops add up the open demand of all cities |
| MapKernel.TakeOver | src/app/plane.c:89-106 | the plane's amounts become those received, `done` tells whether all of them are 0, and the first negative amount stops it, after it was written and before any later one is |
| Floyd.RoundKeepsCross | src/parser.c:177-188 | row k and column k do not change in round k, so working in place is harmless |
| Floyd.RelaxIsShortest | src/parser.c:180-186 | a relaxed entry is the length of a shortest walk with one more city allowed as a stop |
| Floyd.RelaxEntry | src/parser.c:180-186 | the loop body changes one entry only, on any numbers; on distances so far it relaxes it as if the round were not done in place |
| Floyd.FloydMatrix | src/parser.c:171-191 | with roads that are not negative every entry off the diagonal becomes the length of a shortest walk, or 0 when there is none; the diagonal stays |
| Floyd.ShortestIsUnique | src/parser.c:171-191 | this determines the matrix |
| Floyd.DistancesSymmetric | src/parser.c:158-159 | with roads entered both ways distances are symmetric |
| Floyd.DistancesTriangle | src/parser.c:180-186 | a detour over a third city is never shorter |
| Floyd.SumIsSmall | src/parser.c:182-184 | no sum formed on the way exceeds 2 n times the longest road |
| Floyd.DistancesAreRoutes | src/parser.c:171-191 | a distance between different cities is positive exactly when a walk connects them |
| Floyd.DistancesSuitTurns | src/parser.c:163-163 | the matrix the parser leaves is one the simulation can run with |
| Turns.UnloadAtKeeps | src/app/map.c:78-85 | one served request keeps the state valid, lowers amounts only, and keeps the balance: in total always, per product when exact |
| Turns.UnloadAtBalance | src/app/map.c:78-85 | one served request always keeps the total balance, and that of a product if and only if the unload is exact for it |
| Turns.UnloadAllKeeps | src/app/map.c:70-89 | the same for a whole first phase, whatever the order of service |
| Turns.UnloadAllNoUse | src/app/map.c:70-89 | after the first phase every served plane scores 0 in its own city, whoever unloaded there later |
| Turns.UnloadAllDelivers | src/app/map.c:70-89 | if some served plane had a positive score where it is, the first phase delivers something |
| Turns.DecideMeaning | src/app/plane.c:47-57 | a landed plane retires exactly when it scores 0 in every city, and otherwise leaves for a city with a positive score at its true distance, nearest among the ten best; with at most ten such cities no one is nearer |
| Turns.ContinuesIff | src/app/map.c:155-184 | the simulation goes on before turn 70000 while some city asks for something |
| Turns.TurnKeeps | src/app/map.c:55-120 | a turn keeps the state valid and distances bounded, lowers amounts only, and keeps the balance |
| Turns.TurnExists | src/app/map.c:55-120 | from every valid state a turn is possible |
| Turns.Conservation | src/app/map.c:55-120 | at every turn boundary of every run amounts are non-negative and no higher than before, and total demand minus total supply is that of the start |
| Turns.ProductConservation | src/app/map.c:189-223 | in a run of exact unloads the balance of every single product is that of the start, at every turn boundary |
| Turns.AllExactIffBalanced | src/app/map.c:70-89 | the unloads of a first phase are all exact if and only if every product is balanced after each of them |
| Turns.ExactRunIffBalanced | src/app/map.c:55-120 | a run keeps the balance of every single product at every moment if and only if all its unloads are exact |
| Turns.WellListedRunIsExact | src/app/map.c:198-220 | where every item is listed everywhere, or last entries ask for nothing, every run is one of exact unloads |
| Turns.DefinedIffReady | src/app/map.c:197-209 | from planes on the ground, every unload of every run is defined if and only if no plane with stocks starts in a city that lists nothing, unless nothing is asked for |
| Turns.EmptyCityExample | src/app/map.c:197-209 | a start whose first unload uses an unset entry |
| Runs.TurnOfLanded | src/app/plane.c:32-63 | a landed plane ends a turn done exactly when it is empty or scores 0 everywhere; otherwise it has left for another city with a positive score, nearest among the ten best |
| Runs.TurnOfFlying | src/app/plane.c:59-61 | a flying plane gets one unit nearer and nothing else of it changes |
| Runs.RetirementSound | src/app/plane.c:47-52 | a retired plane scores 0 in every city, at every later turn boundary |
| Runs.UnwantedIff | src/app/map.c:295-314 | no city asks for anything in a load if and only if every city scores 0 and nothing asked for is overlooked |
| Runs.RetirementInGoods | src/app/plane.c:47-52 | a retired plane carries nothing any city asks for, if and only if nothing asked for is repeated behind an empty first entry; never when its load started without repetition |
| Runs.RepeatedLoadIsStranded | src/app/map.c:304-311 | a start with enough of every product from which a plane retires with goods that a city asks for, and the city is never served |
| Runs.Flight | src/app/plane.c:59-61 | k turns into a flight the plane is k units nearer, to the same city, with the same load |
| Runs.Departure | src/app/plane.c:47-57 | a plane never leaves for the city it is in; where it goes its score is positive, and no city of the ten best is nearer |
| Runs.TakeOff | src/app/plane.c:35-61 | with positive distances between different cities, the next unload comes exactly distance + 1 turns later |
| Runs.WindowMakesProgress | src/app/plane.c:35-61 | in 2 (far + 1) turns with a plane under way something is delivered or a plane retires |
| Runs.AllRetireInTime | src/app/map.c:55-120 | after 2 (far + 1) (T + P) turns every plane has retired, whatever the map and the loads |
| Runs.SettledInTime | src/app/map.c:55-120 | in every run, exact or not, by then all cities are satisfied if and only if what is left aboard covers what is left to ask for, product by product, and none of it is overlooked; the step from which the conditions on the start below follow |
| Runs.MetWithinBound | src/app/map.c:155-184 | a run that satisfies every city does so within that bound |
| Runs.SatisfiedInTime | src/app/map.c:55-120 | in a run of exact unloads every city is satisfied by then if and only if there was enough of every product at the start and nothing asked for is left overlooked, which loads without repetition never do |
| Runs.WellListedIsSatisfied | src/app/map.c:55-120 | the same with a condition on the files alone instead of exact unloads |
| Runs.StopsSatisfied | src/app/map.c:155-184 | a simulation whose bound is within the turn limit stops with every city satisfied, and then within the bound, if and only if what is left aboard covers what is left to ask for and none of it is overlooked; for exact unloads that is a condition on the start |
| Runs.MetIffCovered | src/app/map.c:155-184 | misdeliveries or not: once every plane scores 0 everywhere, all cities are satisfied if and only if the loads left cover the demand left, product by product, and nothing asked for is overlooked |
| Runs.EnoughMayNotBeEnough | src/app/map.c:198-220 | a start with enough of every product from which one turn retires all planes and a city is never served |
| Runs.RetiredForGood | src/app/map.c:55-120 | once every plane has retired nothing changes any more |
| Surplus.UnloadExposes | src/app/map.c:197-219 | what one unload costs in goods of a product the city gains in demand met for it, or loses in what it can still swallow of it |
| Surplus.LackNeverGrows | src/app/map.c:55-120 | in every run demand minus supply of a product, plus what of it can still get lost, never grows |
| Surplus.AmpleSatisfies | src/app/map.c:55-120 | goods that are ample at the start have satisfied every city once all planes have retired, but for products repeated in a load and overlooked; loads without repetition leave nothing |
| Surplus.AmpleInTime | src/app/map.c:55-120 | the same after 2 (far + 1) (T + P) turns |
| Surplus.AmpleStops | src/app/map.c:155-184 | with ample goods, loads without repetition and that bound within the turn limit the simulation stops by itself, within the bound, with every city satisfied |
| Surplus.TolerantIsAmple | src/app/map.c:198-220 | where every city whose last entry asks for something lists all that is asked for anywhere, enough supply is ample |
| Surplus.WellListedIsTolerant | src/app/map.c:198-220 | that is a weaker condition than that nothing carried can be taken for something else |
| Surplus.GuardedIsSatisfied | src/app/map.c:198-220 | with a last entry that asks for nothing added to every city, on any map, every city is satisfied by then if and only if there was enough of every product, for loads without repetition |
| Shortage.ShortFleet | src/app/map.c:198-220 | for enough goods that are not ample: a fleet with no less of anything, and a run of it after which all planes have retired and a city still asks for something |
| Shortage.SatisfiedIffAmple | src/app/map.c:55-120 | enough goods have satisfied every city in every run once all planes have retired, however they or more are spread over planes and cities and in whatever order planes are served, if and only if they are ample |
| Shortage.SatisfiedIffTolerant | src/app/map.c:55-120 | every fleet with enough of every product and no repetition has satisfied every city, in every run, once all its planes have retired, if and only if the map is tolerant: every city whose last entry asks for something lists all that is asked for |
| Configuration.Sim2IsAmple | configFiles/sim2/map:1-28 | the goods of this configuration are ample, although its map is not tolerant |
| ProtocolInvariant.InitInv | src/app/airline.c:42-94 | the system starts within the invariant |
| ProtocolRefinement.NextKeeps | src/app/airline.c:96-218 | every step of every thread keeps the invariant |
| ProtocolRefinement.Refinement | src/app/map.c:55-120 | at any moment of any schedule the completed turns form a run of the turn-by-turn simulation, and between turns map and planes hold exactly its last state |
| ProtocolRefinement.RecordGrows | src/app/map.c:114-120 | only the end of a turn adds to the record of turns, and it adds what the threads hold then |
| ProtocolRefinement.SecondPhaseOnlyReads | src/app/map.c:94-114 | the cities change in the first phase only, so the order of answers in the second is of no consequence |
| ProtocolRefinement.PhasesDoNotOverlap | src/app/plane.c:32-62 | no plane has the second phase under way, or its signal unread, while another has the first |
| ProtocolRefinement.BarrierIsClean | src/app/map.c:70-114 | when the map leaves a collecting loop every airline has reported, no request or reply is under way in any queue or hand, and every plane has finished the phase |
| ProtocolRefinement.OneReportEach | src/app/map.c:70-114 | no queue of the map holds two messages of the same plane or airline, and a report in it is one the airline owed |
| ProtocolRefinement.ErrorBranchesAreDead | src/app/plane.c:7-20 | the map never drops a message, no plane ever gets one it does not expect or finds End in the middle of a turn |
| ProtocolRefinement.OneMessagePerMailbox | src/app/airline.c:157-166 | a mailbox never holds more than one message |
| ProtocolRefinement.BroadcastReachesCounted | src/app/airline.c:157-187 | although the done flags are read twice without a lock, the broadcast reaches exactly as many planes as were counted |
| ProtocolRefinement.CleanShutdown | src/app/airline.c:56-66 | once an airline has destroyed its mailboxes, at any later moment too, all its planes are done and have left, with nothing unread there or in its queue |
| ProtocolRefinement.ExecutionConserves | src/app/map.c:55-120 | between turns of any schedule demand never rose and the total balance is that of the start |
| ProtocolStop.StopIsObeyed | src/app/map.c:55-55 | in every schedule, once the stop flag is raised no further turn is counted |
| ProtocolStop.AtMostOneTurnMore | src/app/map.c:55-120 | after the signal at most the turn under way is completed |
| ProtocolStop.MapDecides | src/app/map.c:55-68 | at the head of its loop the map goes on to End, counting no turn, if the flag is raised, the turn is 70000 or nobody asks for anything, and otherwise counts a turn and goes on to Step |
| ProtocolStop.SignalAtAnyTime | src/app/main.c:178-184 | every schedule can go on with the signal |
| ProtocolStop.EveryStartIsPossible | src/app/main.c:186-215 | every state the simulation may start from is the start of a schedule |
| ProtocolControl.PlaneNeverFails | src/app/plane.c:7-20 | no plane's error branch or mid-turn End branch can be taken |
| MapControl.MapNeverRejects | src/app/map.c:86-113 | the two "invalid message" branches of the map cannot be taken |
| ProtocolTraffic.NobodyWaits | src/app/map.c:70-114 | with every airline's report counted nobody waits for a reply and every queue is empty |
| ProtocolDuties.EveryStepKeepsDuty | src/app/airline.c:168-218 | signals and reports of an airline alternate, step by step |
| ProtocolDuties.OneReportPerSignal | src/app/airline.c:168-218 | in every schedule an airline has sent one AirlineDone per Step and one AirlineStatus per Continue, but for the one it may still owe |
| ProtocolDuties.NothingOwedBetweenTurns | src/app/map.c:70-114 | between turns the numbers are equal |
| ProtocolProgress.NeverStuck | src/app/airline.c:168-218 | with queues of any capacity of at least 1, every reachable state that is not final has a thread that can step |
| ProtocolProgress.FinalIsClean | src/app/airline.c:56-66 | in a final state every queue and mailbox is empty, every lock free, every plane thread gone |
| ProtocolWaiting.MapWaits | src/app/map.c:70-114 | in every reachable state the map can step if and only if it is not through, has a message to read when it collects reports, and has room for its reply when it sends one |
| ProtocolWaiting.ListenerWaits | src/app/airline.c:96-187 | a listener can step if and only if what it waits for is there: a message, the lock, room to report, or the end of its planes |
| ProtocolWaiting.PlaneWaits | src/app/plane.c:22-62 | a plane can step if and only if what it waits for is there: a message, room in the map's queue, or the lock |
| ProtocolTermination.EveryStepLowers | src/app/airline.c:96-218 | every step of every thread lowers a well-founded measure, so every schedule ends |
| ProtocolOutcome.ExecutionsAreBounded | src/app/airline.c:96-218 | no schedule takes more steps than a number that depends on how many planes and airlines there are |
| ProtocolOutcome.StoppedSatisfied | src/app/map.c:55-120 | when the map of any schedule has stopped by itself, ample goods in loads without repetition have satisfied every city; otherwise every city is satisfied if and only if what the planes hold covers what is asked for and none of it is overlooked |
| ProtocolOutcome.EveryExecutionCompletes | src/app/airline.c:42-94 | every schedule, however far it has come, goes on to a final state within that number of steps, and there, without a signal and with loads without repetition, every city is satisfied if the goods were ample, and on a well listed map exactly if supply sufficed |
| SharedTable.WriteAppends | src/ipc/shmem.c:242-269 | with fewer than 16 messages there is a slot and an index place, and writing appends the message, cut to 512 bytes |
| SharedTable.WriteValidIffNotEmpty | src/ipc/shmem.c:243-268 | the table stays in order after a write if and only if the message is not empty |
| SharedTable.ReadTakes | src/ipc/shmem.c:213-225 | reading yields the oldest message, cut to the reader's buffer, and leaves the others in order |
| SharedTableInPlace.Queue.WriteLocked | src/ipc/shmem.c:242-269 | the critical section, with its two search loops, does that in place |
| SharedTableInPlace.Queue.ReadLocked | src/ipc/shmem.c:213-225 | the critical section, with its shifting loop, does that in place |
| SharedTableInPlace.Queue.constructor | src/ipc/shmem.c:121-128 | a new queue is in order and empty |
| SharedQueue.RefinesFifo | src/ipc/shmem.c:203-275 | for any number of readers and writers, what was sent is what was received followed by what is stored, at most 16 messages |
| SharedQueue.StepIsFifoStep | src/ipc/shmem.c:203-275 | every step of a thread is a step of a queue with sixteen places: a push in a writer's critical section, a pop in a reader's, and nothing elsewhere |
| SharedQueue.WholeMessage | src/ipc/shmem.c:203-231 | a reader with room for a packet gets the oldest message whole |
| SharedQueue.WorkIsPossible | src/ipc/shmem.c:190-260 | under the lock a writer always finds a slot and an index place and a reader a message, and the checked semaphore values are in range |
| SharedQueue.QuietSemaphores | src/ipc/shmem.c:127-128 | with no thread inside, the semaphores count the used and the free places |
| SharedQueue.InsideMoves | src/ipc/shmem.c:203-275 | while some thread is inside, one that is inside can move |
| SharedQueue.ComesInIff | src/ipc/shmem.c:203-260 | a writer can come in if and only if fewer than sixteen places are in use, promised or just being given back, a reader if and only if a message is neither promised nor just being handed in |
| SharedQueue.GoesOnIff | src/ipc/shmem.c:203-275 | a thread that is inside waits for the lock on its way to the table and for nothing else |
| Ring.PutAppends | src/communication/msgqueue.c:67-68 | storing appends, also around the end of the array |
| Ring.TakeRemoves | src/communication/msgqueue.c:48-49 | taking removes the first message |
| Ring.Sizes | src/communication/msgqueue.c:41-59 | the two wait conditions mean "empty" and "nine messages" |
| RingInPlace.MessageQueue.PushLocked | src/communication/msgqueue.c:67-68 | the same in place on the array and its two indices |
| RingInPlace.MessageQueue.PopLocked | src/communication/msgqueue.c:48-49 | the same in place |
| RingInPlace.MessageQueue.Peek | src/communication/msgqueue.c:74-86 | peeking yields the first message, or the given value when there is none, and changes nothing |
| MessageQueue.RefinesFifo | src/communication/msgqueue.c:36-72 | for any pushers and poppers, spurious wakeups included, what was pushed is what was popped followed by what is stored, at most nine messages |
| MessageQueue.StepIsFifoStep | src/communication/msgqueue.c:36-72 | every step of a thread is a step of a queue with nine places |
| MessageQueue.NoLostWakeup | src/communication/msgqueue.c:41-70 | if a popper sleeps, woken poppers are at least the stored messages; if a pusher sleeps, woken pushers are at least the free places |
| MessageQueue.SomebodyMoves | src/communication/msgqueue.c:41-70 | whenever a sleeping thread could proceed some thread that is awake can move |
| MessageQueue.TestDecides | src/communication/msgqueue.c:41-68 | with the mutex a pusher sleeps if and only if there are nine messages and a popper if and only if there is none; otherwise the one appends its message and the other takes the first |
| MessageQueue.GoesOnIff | src/communication/msgqueue.c:36-72 | a thread that is awake waits for the mutex on its way in and for nothing else |
| Products.NumbersAreStable | src/models/product.c:7-33 | interning a listed name gives back its number and changes nothing, for all of them exactly when no name is listed twice |
| Products.Intern | src/models/product.c:26-54 | the number given to a name stands for it, and numbers given before stay |
| Products.InternMeaning | src/models/product.c:7-54 | only a new name is added, at the end, and a listed name gets its first number |
| Products.Table.GetProductId | src/models/product.c:7-18 | the number of the first product with that name, or -1 |
| Products.Table.GetProduct | src/models/product.c:26-54 | finds or appends the product; ids stay dense and names unique |
| StockMessages.RebuildIsExact | src/app/map.c:139-151 | every load survives number, name, number, and the table does not grow, if and only if names are unique |
| StockMessages.MarshallStocks | src/marshall/plane.c:31-44 | the first `count` places of the two tables are the stock list |
| StockMessages.InitPlane | src/app/map.c:127-152 | the map works on a true copy of the load, in new stocks, and no product is added |
| StockMessages.RedirectStock | src/app/airline.c:131-142 | the plane gets the first `count` quantities |
| StockMessages.AnswerUnload | src/app/map.c:78-85 | the map's reply carries the load after the exchange, and only the plane's city changed; it fails exactly when the exchange is undefined |
| StockMessages.UnloadByMessage | src/communication/plane.c:46-60 | an unload through all the messages leaves plane and city as if they had exchanged directly, with order and product ids unchanged, and fails exactly when the exchange is undefined |
| StockMessages.FitsPacket | src/marshall/plane.h:9-26 | a message with the fifty stocks it has room for fits a packet of 512 bytes |
| Parser.StocksAreRead | src/parser.c:125-133 | on every input: the pairs of a name and an amount it begins with become stocks, and the word behind them is read too |
| Parser.CutCities | src/parser.c:114-151 | every input consists of as many cities as are announced and a tail, or of fewer and nothing else, so that the rows below cover every file |
| Parser.AnyCities | src/parser.c:114-151 | on every input: which cities are read, with which stocks, each later name through the lookahead buffer; that products are numbered without repetition and only those that are listed; which cities are missing, what is in the buffer then, and what is left to read |
| Parser.NotFoundIff | src/models/city.c:16-28 | no city is found exactly when the search ends, or comes to a city without a name, before there is a match |
| Parser.RoadsAreRead | src/parser.c:152-161 | on every input: the roads are entered both ways, until one is incomplete, unless one joins a city that is not known |
| Parser.AnyMap | src/parser.c:47-168 | on every map file that begins with a count: exactly when the parser goes wrong, and otherwise the cities, products and roads it reads |
| Parser.AnyAirline | src/parser.c:194-243 | on every airline file: the planes it reads, in the first city of the name they are listed under, with their stocks, the planes that are only announced, and the products that are added to the table |
| Printing.RoadsComeBack | src/parser.c:152-161 | printed roads are entered between the cities they name |
| Printing.ParsePrint | src/parser.c:114-168 | a printed map is read back, cities, stocks and roads, if and only if it has a road, or has several cities of which the last asks for nothing |
| Printing.MatrixOfFile | src/parser.c:152-161 | the matrix holds the last road listed between two cities, both ways, and 0 where there is none |
| Printing.ParsePrintAirline | src/parser.c:194-243 | a printed airline is always read back, planes in their cities with their loads; products keep their numbers |
| Startup.FilesMakeInitialWorld | src/parser.c:194-243 | a map and planes that were read make a state the simulation may start from if and only if no city repeats a product, no amount is negative, and planes with goods start in cities that list something; no load repeats a product if and only if none does in the file |
| Startup.FleetsComeBack | src/app/main.c:96-106 | all printed airlines are read back, one after the other, with one product table |
| Startup.FilesMakeStart | src/app/main.c:94-106 | from the printed files to the first state: every city asks for what its list says, and the k-th plane of each airline, in the numbering through all airlines, is on the ground in its city, at work, with all its goods |
| Startup.StartsIffFair | src/app/main.c:94-122 | that state is one the simulation may start from if and only if the files are fair in the sense above |
| Startup.FilesStartExecution | src/app/main.c:94-215 | fair files without negative roads start a schedule of the whole system, over the closed matrix and with any capacity of the queues |
| EndToEnd.AmpleFilesAreAmple | src/models/product.c:26-54 | by name or by number: files in which, of every product asked for, the planes carry what is asked for and what may get lost make a world with ample goods |
| EndToEnd.FilesAreSatisfied | src/app/main.c:94-149 | from the files to the end: with ample goods, no load repeating a product and time for all there is to do within the turn limit, every schedule that starts from the files goes on to a final state, in which, without a signal, no city asks for anything |
| ParserInPlace.Input.Pair | src/parser.c:126-126 | how many of a word and a number could be read, and what is left |
| ParserInPlace.ReadStockList | src/parser.c:125-133 | the reading loop does what the function on token streams says, on every input |
| ParserInPlace.ReadAllCities | src/parser.c:114-151 | the same for the loop over the cities |
| ParserInPlace.GetCityId | src/models/city.c:16-28 | the first city with the name; -1 exactly when there is none before the end or before a city without a name |
| ParserInPlace.ReadAllRoads | src/parser.c:152-161 | the same for the roads, in place on the matrix |
| ParserInPlace.ParseMap | src/parser.c:17-168 | on every input: the cities and products read, and a closed matrix, of shortest distances when no number is negative |
| ParserInPlace.ParseAirlines | src/parser.c:194-243 | the same for an airline file |
| Startup.LoadAirlines | src/app/main.c:96-106 | the loop over the airline files does, in place, what the function on token streams says |
| Startup.Load | src/app/main.c:94-106 | map and airlines are read with one product table, and the matrix is closed |

## Left out

- Turns.ProductConservation: holds for runs of exact unloads only, because the code exchanges unlisted items against the last entry; `Turns.ExactRunIffBalanced` shows that no other run keeps every product balanced throughout.
- Runs.SatisfiedInTime: judges by the supply at the start, which only exact unloads allow; `Shortage.SatisfiedIffAmple` is the condition on the start for all runs.
- Runs.SettledInTime: judges a single run by what is left at its end; the conditions on the start are those of `Surplus` and `Shortage`. For goods that are not ample it depends on the fleet and on the order of service whether a city stays unserved.
- Runs.StopsSatisfied: the same; `Surplus.AmpleStops` judges by the start.
- Delivery.AnswerMeaning: the library sort is any arrangement by distance, not a particular one; ties may come in any order.
- Floyd.FloydMatrix: says nothing about what becomes of a matrix with a negative road, which a map file is not supposed to hold; a road from a city to itself stays on the diagonal as it was entered.
- ParserInPlace.ParseMap: says of a file with a negative road only which cities and products are read.
- Parser.AnyMap: a file is a sequence of words and numbers there. Words of which a number conversion would read the first characters, such as 7up, words that are too long for their buffer, and numbers that are too large are left out; and what exactly happens to a file that makes the parser use an unfilled buffer, a road without its length, or an index outside the matrix is one outcome, Undefined.
- Printing.ParsePrint: product and city names that look like numbers, as a printed file cannot hold them; `Parser.AnyMap` covers such files.
- SharedQueue.RefinesFifo: writes of length 0, which no message of the program is; `SharedTable.WriteValidIffNotEmpty` shows why they are excluded.
- MessageQueue.RefinesFifo: the closing flag and the destruction of a queue with waiting threads; mailboxes are destroyed after all plane threads are joined.
- Protocol: queues are bounded sequences and locks are taken atomically there. `SharedQueue.StepIsFifoStep`, `MessageQueue.StepIsFifoStep` and `ProtocolChannels.StepUsesChannels` show that the queues' threads and the protocol's steps agree on what a step of a queue is; no state machine interleaves the steps inside the queues with those of the protocol.
- Protocol: the sender in AirlineDone and AirlineStatus stands for the process that wrote the message; the map does not look at it. Airline status counts of flying planes, which only the display uses, are not in the message.
- Protocol: the peek before each action is a step of its own, enabled whenever End is at the head of the mailbox; it is shown never to be enabled.
- Amounts, scores and sums are unbounded integers; wrap-around of 32-bit amounts is not modelled. `Floyd.SumIsSmall` bounds the sums of the distance matrix.
- A stock refers to its product by the product's id instead of by a pointer; ids are shown to be stable.
- The map's completion percentage, the display process and its messages (src/app/output.c).
- Process creation, the listing of the configuration folder and the installing of signal handlers (src/app/main.c, src/app/signal.c): the airline files come in the order in which they are given, and a signal is a step that may set the stop flag at any time.
- The other transports (src/ipc/fifo.c, src/ipc/mqueue.c, src/ipc/socket.c) and the semaphore wrapper (src/utils/sem.c).
- Allocation failures, transport errors and the freeing of memory.
- The vector of src/utils/vector.c, which is a sequence here.
