# Orchestrator, outbox, crawler and schedules: a verified model

This project models the parts of the SEO platform in which correctness rests on more than one
function, and proves what they are for.

- **The workflow orchestrator** over an at-least-once bus. The tables are the state; the actions are
  creating a workflow, setting it running, accepting a completion, locking and reading the row,
  committing an `advance`, and crashing. Any number of processes interleave them, and completions
  may be duplicated, reordered or forged. `mark_step` takes no lock, and it is a result that it
  never hits a workflow somebody else is busy with: no two processes are ever busy with one
  workflow, and no read under the lock is ever out of date. Whatever the interleaving, a workflow
  goes exactly where a sequential interpreter of its plan goes. What every step, request and
  announcement then says is stated field by field, in terms of the inputs and the answers alone.
- **The outbox and its relays**: several stagers, several relays, crashes in mid-batch, a broker that
  fails, and pruning. No event is lost, none is invented, and every copy on the bus is accounted for.
  The two protocols are composed, so that a dispatched step's request is out or still waiting.
- **The crawler**: the batched breadth-first crawl equals a one-URL-at-a-time crawl, its depths are
  shortest distances along the links it follows, and a crawl that runs out of URLs has fetched or
  refused exactly what is in reach. Sitemap discovery ends for any responses and goes breadth first.
- **Internal PageRank** in exact arithmetic: mass is conserved, an iteration contracts by 0.85, and
  the result stays within a stated distance of everything further iterations could give, and of the
  fixed point.
- **Schedules**: the next occurrence on a Gregorian calendar, catching up after an outage, and several
  schedulers at work on one table, where every schedule always points at its own next occurrence.
- **Send-once notifications**, **finishing a job** together with its events, and **title trimming**.

Where the source changes rows or variables in place, the model is a class or a method with loops,
tied by its contract to a function; the lemmas are about that function.

| file | module | what it models |
|---|---|---|
| Workflows.dfy | Workflows | the tables' rows and the decisions over them |
| Interpreter.dfy | Interpreter | the sequential reference interpreter |
| RowInvariant.dfy | RowInvariant | what every write keeps true of one workflow |
| Protocol.dfy, Orchestration.dfy | Protocol, Orchestration | the interleaved protocol and what holds in all its runs |
| Accounts.dfy | Accounts | what steps, requests, announcements and errors say in every reachable state |
| SiteAudit.dfy | SiteAudit | the audit plan, its requests, its completions |
| AuditRuns.dfy, AuditRequests.dfy | the same | what follows for runs of that plan; what its requests carry and when a step has nothing to do |
| Handlers.dfy, Worker.dfy | the same | the handlers as methods, the worker's cache |
| Outbox.dfy, RelayLoop.dfy, Delivery.dfy | the same | the outbox protocol, the relay's loop, the composition |
| JobStore.dfy | JobStore | finishing a job with its events |
| Crawler.dfy, CrawlLinks.dfy, CrawlDistance.dfy | the same | the crawl, the links it follows, its meaning |
| Sitemaps.dfy | Sitemaps | sitemap discovery |
| Sums.dfy, PageRank.dfy, Convergence.dfy | the same | finite sums, the PageRank iteration, how it settles |
| LinkAuthority.dfy, Scores.dfy | the same | computing it, and the scores |
| Calendar.dfy, Schedules.dfy, Schedulers.dfy | the same | occurrences, firing, several schedulers |
| Notifications.dfy, Titles.dfy | the same | deliveries, title trimming |
| Options.dfy, Picks.dfy | the same | a value that may be missing; which entries of a list were picked |

## Where the code and its own description differ

- The contract of `workflow.completed` lists six step kinds and leaves out `competitor_crawl` and
  `competitor_check`. With payload validation on, an audit with competitors therefore never announces
  its end. `AuditRuns.AnnouncedIffNoCompetitors` states exactly when it does: the inputs name no
  competitor and the rest of the payload is valid. `AuditRuns.Unannounced` is a run that ends without.
- "Nothing to do is an answer, not a fault" (agents/orchestrator/engine.py:122) holds for one step in
  an `advance`, not for two in a row: the second one fails the workflow. For audits,
  `AuditRuns.AuditIsPlain` says for all answers when this makes a difference: exactly if the link
  analysis is reached and the answer to the crawl carries no crawl id. That can happen, because a
  completion is matched by its job id alone: `AuditRuns.TwoInARow` is such an input, with the crawl's
  job reported by a `serp.checked` event. It cannot happen if every job is reported by an event of its
  own type (`AuditRuns.HonestIsFed`).
- A process that dies, or whose handler raises, after its `mark_step` has committed and before its
  `advance` has, leaves the workflow waiting for nothing, because the redelivered event matches no row. `Orchestration.StalledIffCrashed`
  says exactly when a workflow that nobody handles neither has ended nor waits for a job: if and only
  if some process crashed while it was busy with it. `Orchestration.CrashFreezes` shows that such a
  workflow never moves again, and `Orchestration.CrashStalls` is such a run. All other results about
  runs include crashes.
- With a worker count below one the crawler's batch loop takes nothing and the crawl goes round for
  ever; the executor clamps the count, the loop does not (services/engine/seoagent/crawler.py:126-129).
- A comment in `_crawl_params` says that the site's own crawl carries no parameters, but the planner
  gives it a start url and the code uses it. The model follows the code.

## Model

| member | source | states |
|---|---|---|
| `Workflows.NextPending` | agents/orchestrator/store.py:69-71 | the pending step with the lowest position, or none |
| `Workflows.FirstFatal` | agents/orchestrator/engine.py:576-578 | the fatally failed step with the lowest position, which is the one a failed workflow names |
| `Interpreter.ResumeKeeps` | agents/orchestrator/engine.py:93-146 | the sequential run never goes back to a settled step |
| `Interpreter.HabitsAgree` | agents/orchestrator/engine.py:119-139 | giving up on the second step without work gives the same run as skipping it if and only if the plain run never skips two steps in a row |
| `Interpreter.RunTerminates` | agents/orchestrator/engine.py:93-146 | with an answer for every job the sequential run ends in a terminal status |
| `RowInvariant.Fresh` | agents/orchestrator/store.py:133-161 | a newly created workflow satisfies the row invariant |
| `RowInvariant.StartRunning` | agents/orchestrator/engine.py:63 | setting it running keeps the invariant |
| `RowInvariant.Accepts` | agents/orchestrator/store.py:163-180 | recording the outcome of a dispatched step keeps order, answers, log and the way to the interpreter's end |
| `RowInvariant.AnswerResumes` | agents/orchestrator/engine.py:75-89 | an answer to the job the interpreter waits for continues its run from that very point |
| `RowInvariant.Advances` | agents/orchestrator/engine.py:93-146 | one `advance` on a current row keeps the invariant and ends terminal or waiting |
| `RowInvariant.Dispatches` | agents/orchestrator/engine.py:145-146 | marking the first pending step and staging its request keep the invariant |
| `RowInvariant.Closes` | agents/orchestrator/engine.py:346-397 | writing a terminal status over a row with nothing dispatched keeps the invariant |
| `RowInvariant.WaitingNotFatal` | agents/orchestrator/engine.py:105-112 | a row that waits has no fatal failure, so the order of the two checks does not matter |
| `Protocol.DutiesKept` | agents/orchestrator/engine.py:93-146 | who acts on a workflow alone, and stays busy with it or leaves it ended or waiting, keeps every duty in order |
| `Protocol.NextKeeps` | agents/orchestrator/engine.py:54-146 | every action of every process keeps the system invariant |
| `Protocol.RunKeeps` | agents/orchestrator/engine.py:54-146 | the invariant holds in every reachable state |
| `Orchestration.StepsInOrder` | agents/orchestrator/store.py:163-200 | in every reachable state the steps are settled ones, then at most one dispatched, then pending ones |
| `Orchestration.RefinesInterpreter` | agents/orchestrator/engine.py:68-146 | crashes included, a workflow that has ended or waits has exactly the steps, results, status and events of the sequential run on the accepted answers |
| `Orchestration.OneAtATime` | agents/orchestrator/engine.py:93-103 | no two processes are ever busy with one workflow, that workflow neither has ended nor waits, and what was read under the lock is still the row |
| `Orchestration.LostMeansCrash` | agents/orchestrator/engine.py:76-89 | the record of lost workflows is exactly the crashes of busy processes |
| `Orchestration.StalledIffCrashed` | agents/orchestrator/engine.py:68-146 | a workflow nobody handles has ended or waits for a job if and only if no process ever crashed while busy with it |
| `Orchestration.CrashFreezes` | agents/orchestrator/engine.py:76-89 | the workflow of a process that crashed while busy with it never changes again |
| `Orchestration.NeverStrays` | agents/orchestrator/engine.py:68-146 | crashes included, the staged events are a prefix of the sequential run's and the settled steps are as it leaves them |
| `Orchestration.StallsForGood` | agents/orchestrator/engine.py:76-89 | an unattended workflow that neither ended nor waits is never changed again |
| `Orchestration.CrashStalls` | agents/orchestrator/engine.py:76-89 | for every plan whose first step can be dispatched, a run that ends in such a state with that step answered and nothing after it started |
| `Orchestration.RequestedOnce` | agents/orchestrator/engine.py:141-146 | over the whole outbox a step has exactly one request if dispatched, completed or failed, and none if pending or skipped |
| `Orchestration.AnnouncedAtMostOnce` | agents/orchestrator/engine.py:385-397 | `workflow.completed` is staged at most once and only by a terminal workflow |
| `Orchestration.SuccessMeans` | agents/orchestrator/engine.py:105-117 | `completed` means all steps settled and only competitor crawls failed |
| `Orchestration.ActionBringsCloser` | agents/orchestrator/engine.py:68-146 | an action leaves a workflow's steps alone or lowers 2 * pending + dispatched |
| `Orchestration.StepBringsCloser` | agents/orchestrator/engine.py:68-146 | the same for every action of every run |
| `Orchestration.ForGood` | agents/orchestrator/engine.py:102-103 | inputs and plan never change, and a finished workflow never changes at all |
| `Orchestration.AcceptsAtMostOnePerStep` | agents/orchestrator/engine.py:12-14 | a workflow of n steps accepts at most n completions, however many arrive |
| `Accounts.StepsTell` | agents/orchestrator/engine.py:68-90 | in every reachable state every step has the plan's kind, job and parameters; an answered one has the answer's outcome, result and error and its request could be built, a skipped one had nothing to do for the reason it gives, any other has no result |
| `Accounts.EndTells` | agents/orchestrator/engine.py:105-139 | in every reachable state a completed workflow has no error and no step that failed but competitor crawls; a failed one blames position, kind and error of the first such failure, or the reason why the request whose turn it was could not be built; any other has no error |
| `Accounts.EventsTell` | agents/orchestrator/engine.py:375-397 | in every reachable state a staged request is for a step that was asked for, as it was built when it was that step's turn, and an announcement carries the status, the error and, step by step, the kind, job, status, error and result of its ended workflow |
| `SiteAudit.PickDistinct` | agents/orchestrator/planner.py:114-140 | no more entries than the cap, none blank, no two with one key |
| `SiteAudit.PickNothing` | agents/orchestrator/planner.py:177-197 | nothing is picked if and only if every entry is blank or taken |
| `SiteAudit.PickLoop` | agents/orchestrator/planner.py:185-197 | the loop with early exit computes that pick |
| `SiteAudit.PlanShape` | agents/orchestrator/planner.py:40-111 | a plan exists exactly if there is a start url; six steps, a crawl per competitor (at most four) and a comparison if there is any, all pending, with distinct jobs |
| `AuditRuns.NoWorkMeans` | agents/orchestrator/engine.py:126-130 | whatever the earlier answers, a step that lacks an id it needs has nothing to do, and otherwise only the rank check and the comparison can have nothing to do |
| `AuditRuns.SkipsExactly` | agents/orchestrator/engine.py:119-130 | for all answers: crawls and research are never skipped; link analysis, rewrite plan and content analysis, if settled, were skipped exactly for lack of the crawl id (or research id) |
| `AuditRuns.SkipsOnlySkippable` | agents/orchestrator/engine.py:119-130 | only rank check and comparison are skipped if and only if neither link nor content analysis is reached without its id |
| `AuditRuns.AuditIsPlain` | agents/orchestrator/engine.py:126-135 | for every audit and all answers, giving up on the second step without work is the same as skipping it if and only if the link analysis is not reached without a crawl id |
| `AuditRuns.HonestIsFed` | agents/orchestrator/engine.py:481-509 | an audit whose jobs were reported by events of their own types never lacks an id |
| `AuditRuns.TwoInARow` | agents/orchestrator/engine.py:68-82 | every six-step audit whose first two requests are valid, whose crawl is reported by an event of another type and whose research finds nothing: the engine fails it, plain skipping completes it |
| `AuditRuns.AuditForLife` | agents/orchestrator/planner.py:77-111 | a workflow created from a plan keeps that plan, and its shape, in every run |
| `AuditRuns.AuditRefinesPlain` | agents/orchestrator/engine.py:68-146 | in every reachable state an audit that has ended or waits is where the plain interpreter gets, if and only if the link analysis is not reached without a crawl id |
| `AuditRuns.RunAnnounces` | agents/orchestrator/engine.py:385-397 | a sequential run announces its end exactly if it is terminal and the announcement is valid |
| `AuditRuns.AnnouncedIff` | shared/contracts/events/workflow.completed.json:50-59 | a finished audit, in any reachable state, has announced its end if and only if it had no competitor steps and the rest of the payload, results and headline included, is valid |
| `AuditRuns.AnnouncedIffNoCompetitors` | agents/orchestrator/planner.py:100-109 | the same in terms of the inputs: if and only if they name no competitor and the rest is valid |
| `AuditRuns.Unannounced` | agents/orchestrator/engine.py:385-397 | for all inputs with a competitor whose one crawl request is refused, a run in which the audit ends without any announcement |
| `AuditRequests.PickIsFirst` | agents/orchestrator/planner.py:114-140 | what is picked are exactly the first entries, in order, that are not blank, not taken and not the same as an earlier one, none left out before the cap is reached |
| `AuditRequests.PlanFits` | agents/orchestrator/planner.py:59-109 | the plan's own crawl is given the stripped start url and both limits, and each competitor crawl its own address, the first four of different origins, with the page cap |
| `AuditRequests.SendsMean` | agents/orchestrator/engine.py:149-339 | whatever request is built for a step, it carries what the inputs and the answers to earlier jobs say: own crawl and research ids in their places, page count and optional study, domain, language and country, the first distinct keywords up to the limit, exactly the crawls of competitors that came back, in order; and it satisfies its contract |
| `AuditRequests.RequestsTell` | agents/orchestrator/engine.py:141-146 | in every run, crashes included, that holds of every request staged for a workflow created as an audit |
| `AuditRequests.NoWorkExactly` | agents/orchestrator/engine.py:217-339 | a step has nothing to do if and only if: no keyword but blank ones was found (rank check), the crawl id is missing (links, rewrite plan), one of the two ids is (content), the crawl id is or no competitor crawl came back (comparison) |
| `AuditRequests.SkipsTell` | agents/orchestrator/engine.py:119-130 | in every run a step of an audit is skipped only if that holds, and asked for only if it does not |
| `AuditRequests.HonestSteps` | agents/orchestrator/engine.py:68-81 | a step reported by an event of its own type has failed if and only if the event says so, with the error it gives |
| `AuditRequests.HonestRequests` | agents/orchestrator/engine.py:481-509 | if every job is reported by an event of its own type, the requests name the workflow's own jobs, and seed and keywords are taken from what the crawl's and the research's events said, the first 25 keywords of it |
| `Handlers.WorkflowStore.Create` | agents/orchestrator/store.py:133-161 | the workflow and its whole plan are inserted, or nothing is, when an id is taken |
| `Handlers.WorkflowStore.MarkStep` | agents/orchestrator/store.py:163-180 | the matching dispatched step gets its outcome; with no match nothing changes |
| `Handlers.WorkflowStore.SkipStep` | agents/orchestrator/store.py:182-191 | a pending step is skipped with its reason, any other is left alone |
| `Handlers.WorkflowStore.MarkDispatched` | agents/orchestrator/store.py:193-200 | a pending step is marked dispatched, any other is left alone |
| `Handlers.WorkflowStore.SetStatus` | agents/orchestrator/store.py:202-246 | status, error and staged events in one write |
| `Handlers.WorkflowStore.Finish` | agents/orchestrator/engine.py:346-397 | the terminal write, without the event if it breaks its contract |
| `Handlers.WorkflowStore.Dispatch` | agents/orchestrator/engine.py:145-146 | the request and the mark together |
| `Handlers.WorkflowStore.Advance` | agents/orchestrator/engine.py:93-146 | the engine's branches compute the specified `advance` |
| `Handlers.WorkflowStore.AdvancePastSkip` | agents/orchestrator/engine.py:126-135 | the second attempt after a skip |
| `Handlers.WorkflowStore.OnCompletion` | agents/orchestrator/engine.py:68-90 | record, then advance; nothing changes without a match |
| `Handlers.WorkflowStore.Start` | agents/orchestrator/engine.py:54-65 | create, set running, advance |
| `Handlers.HandlerSteps` | agents/orchestrator/engine.py:68-90 | a completion handled without interruption is three actions of the protocol |
| `Handlers.StartSteps` | agents/orchestrator/engine.py:54-65 | a start without interruption is four |
| `Worker.Remembered` | agents/orchestrator/worker.py:115-118 | the id is remembered, nothing foreign is, and the bound holds |
| `Worker.SpentIsIdle` | agents/orchestrator/worker.py:48-86 | for an event that has had its effect, handling it and doing nothing are the same |
| `Worker.SpentForGood` | agents/orchestrator/worker.py:48-86 | no single write of any process, nor a crash, gives an event that has had its effect another one |
| `Worker.HandledIsSpent` | agents/orchestrator/worker.py:48-86 | the first write of its handler exhausts an event |
| `Worker.CacheInvisible` | agents/orchestrator/worker.py:42-62 | over any interleaving of any number of processes, crashes and failing handlers included, exactly the same causally valid histories are possible with the cache and without it |
| `Worker.EventWorker.Remember` | agents/orchestrator/worker.py:115-118 | clearing at the bound and adding is `Remembered` |
| `Worker.EventWorker.Deliver` | agents/orchestrator/worker.py:48-86 | a known id does nothing; a handler that raises leaves tables and cache alone |
| `Outbox.NextKeeps` | shared/relay.py:42-81 | every stage, claim, publish, mark, commit, rollback and prune keeps the outbox invariant |
| `Outbox.RunKeeps` | shared/relay.py:42-117 | the invariant holds in every reachable state |
| `Outbox.NothingLost` | shared/relay.py:42-81 | a committed event is unpublished and unchanged in the table or on the bus with every field; what is on the bus was committed |
| `Outbox.CopiesAccounted` | shared/relay.py:42-66 | copies on the bus are one per delivered row plus one per rolled-back publication |
| `Outbox.InsertedForGood` | shared/relay.py:69-81 | what was committed stays on record with the same content |
| `RelayLoop.SelectionUnique` | shared/relay.py:31-39 | table, locks and batch size determine the claimed rows |
| `RelayLoop.Table.ClaimBatch` | shared/relay.py:31-39 | the lowest unpublished rows nobody has locked |
| `RelayLoop.Table.Drain` | shared/relay.py:42-66 | all claimed rows, and only those, are on the bus in order with every field and marked with the time; or the marks are rolled back and the copies that went out are left |
| `RelayLoop.Table.PruneBefore` | shared/relay.py:69-81 | a row stays, as it is, if and only if it is unpublished or was published at the cutoff or later |
| `RelayLoop.PassIsRun` | shared/relay.py:42-66 | what a pass does to rows and bus, committed or cut short, is a run of the protocol |
| `RelayLoop.PassDrains` | shared/relay.py:42-66 | whatever others hold, a committed pass leaves exactly the other unpublished rows, and leaves one that nobody holds only if its batch was full |
| `Delivery.AtMostOneEvent` | agents/orchestrator/engine.py:141-146 | no orchestrator action stages more than one event |
| `Delivery.RunLinks` | agents/orchestrator/store.py:245-246 | every event the orchestrator staged is a committed outbox row |
| `Delivery.OrchestratorKeeps` | agents/orchestrator/engine.py:54-146 | the orchestrator's invariant holds in the composed system |
| `Delivery.EventsGetOut` | agents/orchestrator/store.py:226-246 | every event the orchestrator staged, announcements included, is on the bus as committed, or unpublished in the outbox |
| `Delivery.RequestsGetOut` | agents/orchestrator/engine.py:141-146 | the request of a dispatched, completed or failed step is on the bus as committed, or unpublished in the outbox |
| `JobStore.StagedSafely` | shared/db.py:239-255 | however events repeat, no event id is in the outbox twice |
| `JobStore.StagedExtends` | shared/db.py:239-255 | earlier rows stay as they are, new ones are the given events, unpublished |
| `JobStore.StagedCompletely` | shared/db.py:215-219 | every event handed in is in the outbox afterwards |
| `JobStore.StagedIsFinished` | shared/db.py:239-255 | every row that staging adds carries its event, type, producer, payload and causation, the tenant and project of the job, and the event's correlation id or else the job's id |
| `JobStore.LastChangeCounts` | shared/db.py:188-205 | of several changes to one field the last counts, and every field no change is about stays as it was |
| `JobStore.StagingTwice` | shared/db.py:244-245 | repeating a write stages nothing more |
| `JobStore.StagingIsRun` | shared/db.py:239-255 | staging a list is a run of the outbox protocol |
| `JobStore.PostgresJobStore.Create` | shared/db.py:132-155 | an existing job is left alone |
| `JobStore.PostgresJobStore.Write` | shared/db.py:183-220 | an unknown field or an unknown job changes nothing; otherwise the changes, the columns that follow from the result and the events are written together, each event under the tenant, project and correlation id it should have |
| `JobStore.PostgresJobStore.Changed` | shared/db.py:188-205 | the loop over changes applies them one after another |
| `JobStore.PostgresJobStore.StageEvents` | shared/db.py:217-219 | the loop over events is the specified staging |
| `JobStore.PostgresJobStore.Complete` | shared/db.py:175-178 | the job is completed with its result and what follows from it, its error cleared, only it changed, all its events are staged |
| `JobStore.PostgresJobStore.Fail` | shared/db.py:180-181 | the job is failed and keeps its result, only it changed, all its events are staged |
| `Crawler.FifoVisits` | services/engine/seoagent/crawler.py:140-157 | fetching the first of a batch is one step of the one-at-a-time crawl |
| `Crawler.FifoDiscards` | services/engine/seoagent/crawler.py:131-135 | dropping a URL behind a batch commutes with fetching the batch |
| `Crawler.Run.Seed` | services/engine/seoagent/crawler.py:114-121 | the start at depth 0, then new same-site sitemap entries at depth 1 |
| `Crawler.Run.TakeBatch` | services/engine/seoagent/crawler.py:128-136 | a fetchable batch within the page budget that leaves the rest of the crawl unchanged; without workers, nothing taken and nothing changed |
| `Crawler.Run.Process` | services/engine/seoagent/crawler.py:141-157 | the loop over links computes `Visit`, which `CrawlLinks.VisitInOrder` describes link by link |
| `Crawler.Run.CrawlAll` | services/engine/seoagent/crawler.py:126-157 | for every number of workers with which the crawl ends: the pages, depths, blocked list and leftover frontier of the one-at-a-time crawl |
| `CrawlLinks.VisitInOrder` | services/engine/seoagent/crawler.py:141-157 | the page is recorded; if it came back all right above the depth limit, exactly the internal links with crawlable addresses whose normalised target was never queued add it, once, in the order of the links, one level down |
| `CrawlLinks.InitialInOrder` | services/engine/seoagent/crawler.py:114-121 | the frontier begins with the start and, in order and once each, the entries of this site among the first `max_pages` of the sitemap |
| `CrawlDistance.DepthsAreDistances` | services/engine/seoagent/crawler.py:114-157 | each page is recorded once, at its shortest distance along followed links and sitemap entries |
| `CrawlDistance.CrawlIsComplete` | services/engine/seoagent/crawler.py:126-157 | with an empty frontier a URL was fetched if and only if it is allowed and within the depth limit |
| `CrawlDistance.StopsForAReason` | services/engine/seoagent/crawler.py:127-129 | never more pages than the cap, and fewer only with an empty frontier |
| `CrawlDistance.NearestPagesFirst` | services/engine/seoagent/crawler.py:127-157 | page limit or not, pages are recorded in order of distance, and every allowed URL nearer than a recorded page was fetched too |
| `CrawlDistance.RefusedExactly` | services/engine/seoagent/crawler.py:131-135 | the URLs reported as refused are, each once, exactly those queued and taken within the depth limit that robots.txt does not allow |
| `CrawlDistance.RefusedAll` | services/engine/seoagent/crawler.py:159-163 | with an empty frontier: exactly the URLs within the depth limit that are not allowed |
| `Sitemaps.DedupeIsFirst` | services/engine/seoagent/crawler.py:86 | the different entries, each once, in the order they first come |
| `Sitemaps.Explored` | services/engine/seoagent/crawler.py:61-82 | at most 25 files, none twice, all reachable, and all reachable ones if the limit was not hit |
| `Sitemaps.ExploredInOrder` | services/engine/seoagent/crawler.py:61-82 | breadth first: the files are the first 25 different ones among the candidates followed by what each fetched index lists |
| `Sitemaps.FoundAndErrors` | services/engine/seoagent/crawler.py:67-76 | found are exactly the fetched files that are sitemaps, errors exactly the pages that pose as one, both in order |
| `Sitemaps.LocsInOrder` | services/engine/seoagent/crawler.py:80-82 | the locations are those of every fetched sitemap that is not an index, one file after another |
| `Sitemaps.Discover` | services/engine/seoagent/crawler.py:51-86 | the loop ends for any responses, and its files, errors and locations are as these laws say |
| `Sitemaps.Read` | services/engine/seoagent/crawler.py:66-82 | what one response adds |
| `PageRank.NextTotal` | services/internal_links/analyze.py:147-156 | an iteration turns total t into 0.15 + 0.85 t, whatever the graph, so a total of 1 stays 1 |
| `PageRank.NextFloor` | services/internal_links/analyze.py:149 | after an iteration every page has at least 0.15/n |
| `PageRank.IterateIsDistribution` | services/internal_links/analyze.py:144-161 | every iterate has total 1 and the floor 0.15/n |
| `PageRank.NextContracts` | services/internal_links/analyze.py:147-156 | an iteration shrinks the L1 distance of any two vectors by 0.85 |
| `Convergence.ChangeBound` | services/internal_links/analyze.py:158 | the change after k iterations is at most 2 * 0.85^k |
| `Convergence.FixedIsUnique` | services/internal_links/analyze.py:147-156 | there is at most one fixed point |
| `Convergence.FixedIsDistribution` | services/internal_links/analyze.py:147-156 | a fixed point has total 1 and no negative entry |
| `Convergence.IterateNearFixed` | services/internal_links/analyze.py:147-161 | the k-th iterate is within 2 * 0.85^k of it |
| `Convergence.StopNearFixed` | services/internal_links/analyze.py:158-160 | after an iteration with change c the ranks are within 17/3 * c of it |
| `Convergence.IteratesStayNear` | services/internal_links/analyze.py:147-161 | all iterates after the k-th stay within 2 * 0.85^k of it |
| `Convergence.StopsNear` | services/internal_links/analyze.py:158-160 | all iterates after one with change c stay within 17/3 * c of it |
| `Convergence.StopsConverged` | services/internal_links/analyze.py:147-161 | wherever the loop stops, all later iterates stay within 2 * 0.85^40, or 17/3 of the threshold |
| `LinkAuthority.BuildOutgoing` | services/internal_links/analyze.py:139-142 | a page stands under another exactly as often as there are links from that one to it, and nothing else stands there |
| `LinkAuthority.NextByLinks` | services/internal_links/analyze.py:147-156 | over that graph an iteration gives a page 0.15/n and 85% of what comes in: every page's rank split evenly over its links, or over all pages if it has none |
| `LinkAuthority.AddShares` | services/internal_links/analyze.py:155-156 | one share per link |
| `LinkAuthority.SpreadPage` | services/internal_links/analyze.py:151-156 | a page passes its damped rank along its links |
| `LinkAuthority.SpreadIsNext` | services/internal_links/analyze.py:148-156 | leaked mass spread evenly plus shares along links is the matrix iteration |
| `LinkAuthority.NextRank` | services/internal_links/analyze.py:148-156 | the loops compute that iteration |
| `LinkAuthority.Change` | services/internal_links/analyze.py:158 | the L1 distance |
| `LinkAuthority.Converge` | services/internal_links/analyze.py:147-161 | the first iterate whose last change was below the threshold, or the 40th |
| `LinkAuthority.Top` | services/internal_links/analyze.py:163 | the largest rank |
| `Scores.RoundedFits` | services/internal_links/analyze.py:164 | rounding to one decimal moves by at most 0.05 and keeps order |
| `LinkAuthority.Authority` | services/internal_links/analyze.py:124-164 | from equal ranks on, iterated by the links and stopped at the first small change or after 40 rounds, near all later iterates: scores from 0 to 100 in whole tenths, the best page at 100, never against the order of ranks, each within 0.05 of its share of the best |
| `Calendar.ClosedForm` | agents/orchestrator/schedules.py:145 | days counted month by month agree with the closed Gregorian formula |
| `Calendar.FirstOf1970` | agents/orchestrator/schedules.py:125 | weekdays are counted from Monday as 0: the first of January 1970 was a Thursday |
| `Calendar.NextDay` | agents/orchestrator/schedules.py:119 | a valid date whose day number is one more |
| `Calendar.AddDays` | agents/orchestrator/schedules.py:126-128 | a valid date whose day number is n more |
| `Calendar.MomentOf` | agents/orchestrator/schedules.py:114 | every instant from day 1 on has its date and time |
| `Calendar.MonthlyLoop` | agents/orchestrator/schedules.py:140-152 | two passes always find the occurrence; the error after the loop is never raised |
| `Calendar.NextRunIsNext` | agents/orchestrator/schedules.py:95-137 | an answer exactly for valid schedules, and for all cadences it is the least occurrence strictly after the given time |
| `Calendar.StepLength` | agents/orchestrator/schedules.py:116-152 | from one occurrence to the next: 1 day, 7 days, or the next month and 28 to 31 days |
| `Calendar.NextUtcIsNext` | agents/orchestrator/schedules.py:103-137 | converted with a fixed offset, the answer is an instant the schedule means, strictly later, with no other such instant in between |
| `Schedules.CatchUpIsPunctual` | agents/orchestrator/schedules.py:155-166 | catching up points at the schedule's own first occurrence after now |
| `Schedules.ClaimDue` | agents/orchestrator/schedules.py:292-296 | due, active, unlocked, longest overdue first, up to the limit |
| `Schedules.FireAllAt` | agents/orchestrator/schedules.py:298-326 | a batch fires each claimed schedule once and leaves the others alone |
| `Schedules.FireAllFits` | agents/orchestrator/schedules.py:298-326 | a batch points every accepted schedule at its first occurrence after now, notes the run, counts it, and stages its inputs in order; it switches off a refused one; nothing else changes |
| `Schedules.FireAllCounts` | agents/orchestrator/schedules.py:321-325 | `runs` stays the number of requests staged for the schedule |
| `Schedules.BatchShrinks` | agents/orchestrator/schedules.py:291-326 | a batch takes exactly its rows, and at least one, out of the due schedules |
| `Schedules.ScheduleStore.Create` | agents/orchestrator/schedules.py:210-232 | an active schedule with what it was given, never run, that points at its first occurrence after now; or nothing for an invalid rule |
| `Schedules.ScheduleStore.SetActive` | agents/orchestrator/schedules.py:261-270 | only the flag changes, and whether the schedule exists is reported |
| `Schedules.ScheduleStore.Delete` | agents/orchestrator/schedules.py:250-259 | only that schedule goes |
| `Schedules.ScheduleStore.FireRows` | agents/orchestrator/schedules.py:298-326 | the loop over claimed rows is the specified batch |
| `Schedules.ScheduleStore.FireDue` | agents/orchestrator/schedules.py:272-328 | each claimed row points at its first occurrence after now and has staged its inputs, or is switched off; counting is kept |
| `Schedules.ScheduleStore.CatchUpAll` | agents/orchestrator/scheduler.py:46-60 | batches end with nothing due; every schedule that was due was run once, now, staged exactly one request with its inputs and points at its first occurrence after now, or is switched off |
| `Schedulers.NextKeeps` | agents/orchestrator/schedules.py:272-328 | every claim, commit, crash, creation, pause and deletion keeps the invariant of several schedulers |
| `Schedulers.RunKeeps` | agents/orchestrator/scheduler.py:10-13 | it holds in every reachable state |
| `Schedulers.NeverTwice` | agents/orchestrator/scheduler.py:10-13 | however many schedulers, whatever their clocks and crashes, the due times a schedule is fired for strictly rise, and `runs` is the number of requests staged |
| `Schedulers.CommitSettles` | agents/orchestrator/schedules.py:321-325 | a commit leaves nothing of its batch due at its time, and makes nothing due at any time |
| `Schedulers.CommitFires` | agents/orchestrator/schedules.py:298-326 | in every run a commit does to tables and outbox what a batch should, and notes the due times it fired for |
| `Schedulers.PointsAhead` | agents/orchestrator/schedules.py:155-166 | in every reachable state, crashes included, every schedule points at its first occurrence after its last run, or after its creation if it never ran |
| `Schedulers.BatchSteps` | agents/orchestrator/schedules.py:291-326 | an uninterrupted batch is a claim and a commit |
| `Notifications.NextKeeps` | services/notifications/worker.py:53-71 | every claim, send, finish, release, crash and channel change keeps the invariant |
| `Notifications.RunKeeps` | services/notifications/worker.py:53-71 | it holds in every reachable state |
| `Notifications.SentAtMostOnce` | services/notifications/store.py:130-168 | one worker at a time per pair, and an attempt is followed by another only if it failed without an answer or with one of the seven "come back later" statuses |
| `Notifications.NotificationStore.TryClaim` | services/notifications/store.py:130-146 | a free pair is reserved, a taken one refused, and a deleted channel is an error |
| `Notifications.NotificationStore.DeleteChannel` | services/notifications/store.py:117-126 | the channel goes and its deliveries with it |
| `Notifications.NotificationStore.RecordOutcome` | services/notifications/store.py:148-156 | the row of the pair says how it went; a missing row stays missing |
| `Notifications.NotificationStore.GiveBack` | services/notifications/store.py:158-168 | only that row goes |
| `Notifications.NotificationStore.HandleChannel` | services/notifications/worker.py:53-71 | one attempt on a free pair, none on a taken one or for a deleted channel; the row left behind depends on the result |
| `Notifications.NotificationStore.Handle` | services/notifications/worker.py:41-71 | up to the first wanted channel that was deleted, every active channel that names the event or none at all, and was free, gets exactly one attempt; its row then says sent, failed for good, or is gone if another try is worth it; no other pair changes |
| `Notifications.ChannelSteps` | services/notifications/worker.py:53-71 | handling a channel without interruption is a run of the protocol |
| `Titles.NormaliseIsNormal` | services/optimizer/analyze.py:125 | words separated by single spaces, nothing around them |
| `Titles.NormalStays` | services/optimizer/analyze.py:125 | normalising a normal title changes nothing |
| `Titles.NormaliseKeepsWords` | services/optimizer/analyze.py:125 | every character that is not white space is kept, in order, and so is where words begin |
| `Titles.TrimIsPrefix` | services/optimizer/analyze.py:118-137 | for every limit a normal prefix of the normalised title, within a limit that is not negative, cut at a space if the window holds one |
| `Titles.TrimChooses` | services/optimizer/analyze.py:129-137 | a title that is too long is cut before the last use of the first separator that leaves something short enough, and only if none does, at the last space of the window, without trailing separators |
| `Titles.TrimTwice` | services/optimizer/analyze.py:118-137 | trimming twice changes nothing if and only if the limit is not negative or only separators stand before the cut |
| `Titles.ShortenTitle` | services/optimizer/analyze.py:129-137 | the loop over separators and the word cut compute the specified shortening |
| `Titles.TrimTitle` | services/optimizer/analyze.py:118-137 | the whole function computes the specified trim |

## Left out

- HTTP routes, the PHP and browser front ends, dashboards, deployment and configuration.
- The report column, trends and model-written summaries (`_report`, `save_summary`, `_summarise`): text and arithmetic over finished steps; no step reads them.
- Score aggregation and the SEO rules: independent single checks and an average.
- `FileJobStore`: a plain map within one process, and it promises nothing across two.
- Job ids, event ids, workflow ids and schedule ids are taken to be unique when new, as random UUIDs are.
- JSON contracts, URL parsing, case folding and white-space tables are parameters: the results hold whatever they are. Only the list of step kinds in `workflow.completed` is written out.
- Tenant filters, timestamps, error texts and attempt counters.
- Daylight saving and the time zone database: results are for wall-clock time and fixed offsets. Years have no upper end, and clocks start two days into year 1.
- Retrying a notification: the handler returns normally after a release, so no retry is promised.
- The existence of a PageRank fixed point: the bounds on later iterates need none. The page attributes `build` reads; self-links are dropped before `BuildOutgoing` is given its edges.
- Crawls with a negative page or depth limit.
- `LinkAuthority.Authority`: exact real arithmetic instead of floating point.
- `Worker.CacheInvisible`: does not cover `workflow.completed`, whose handler asks a language model, nor requests without a workflow id, which get a new one each time.
- `Schedules.ScheduleStore.CatchUpAll`: one scheduler at one time; several are the subject of `Schedulers`, which promises no progress while another scheduler holds the rows.
- `Calendar.NextUtcIsNext`: fixed offsets only, as above.
- `RelayLoop.PassDrains`: says what a committed pass leaves; that a pass ever commits depends on the broker.
