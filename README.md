# Ticket to Ride viewer and search-tree sampler, in Dafny

This project models the deterministic bookkeeping of the Ticket to Ride AI
viewer (`gui.py`) and the search-tree sampler (`graph.py`), and proves what
that bookkeeping promises.

- **Snapshot builder** (`update_game_state`): the live game becomes a plain
  record. Each connection is kept once, with its first city ordered before
  its second. `route_info` is keyed `"c1-c2"`. Players are copied in game
  order, the turn is the largest player turn, and agent labels fall back to
  a fixed table.
- **Map choice** (`set_map_type`): the European and USA probe cities are
  counted, and a strict majority picks Europe.
- **Action formatting** (`format_action`): each action becomes a message
  template with its arguments. An action that raises inside the `try`
  becomes the `str(action)` fallback.
- **Viewer object** (`TicketToRideGUI` and its render thread): a class whose
  thread is the boolean `threadAlive` and whose two queues are sequences.
  `Tick` is one pass of the render loop. A command drain stops at the first
  quit. An update drain redraws every queued snapshot in order, and `frames`
  records each redraw.
- **Action log**: an entry is appended per action-bearing redraw, and the
  oldest entry is evicted beyond ten. The panel shows the five newest,
  newest first.
- **Route drawing arithmetic**: dash-count clamping and the dash/gap
  scaling, parallel-track and parallel-claim offsets, canonical route keys,
  grouping of claims by sorted city pair, the claimed-route length floor,
  and player colour slots.
- **Tree sampler** (`visualize_mcts_tree` up to the layout): a
  breadth-first worklist with a depth cap. Children are sorted stably by
  mean value, and above `k` children the top three plus `k - 3` random
  others are kept. Each kept child gets a colour bucket and an edge label.
  Nodes are identified by their path of child indices.

Files: `values.dfy` (items, colours, string order), `actions.dfy`,
`snapshots.dfy`, `actionlog.dfy`, `geometry.dfy`, `viewer.dfy` and
`mcts.dfy`.

The render loop applies, logs and redraws every dequeued snapshot in
order, not only the newest (gui.py:370-376); `Viewer.Gui.DrainUpdates` and
`Viewer.ReplayLog` state this.

## Model

| member | source | states |
|---|---|---|
| Values.StrLessIrreflexive | gui.py:182 | no name sorts before itself under Python's string `<` |
| Values.StrLessAsymmetric | gui.py:182 | two names never sort before each other, so the `city1 < city2` filter keeps at most one direction of a pair |
| Values.StrLessTotal | gui.py:182 | of two different names one sorts first, so every listed pair has one kept direction |
| Values.StrLessTransitive | gui.py:182 | the string order is transitive, so it is a strict total order |
| Actions.Plus | gui.py:316 | `+` on two tuple elements succeeds exactly for number+number or string+string, and numbers give a number |
| Actions.FormatAction | gui.py:285-322 | "No action" exactly for an empty action; the player is always the last element; a claim reports cities 1 and 2 and its card colour exactly when it has a card colour at index 3, and falls back otherwise; a card draw with fewer than five elements falls back; a destination draw reports `action[1]+action[2]+action[3]` when that sum is defined and falls back otherwise; an unknown kind gives the generic line; every raising case falls back to the action itself |
| Actions.WildFirstCardWins | gui.py:299-300 | a wild first card is reported as one wild draw, whatever the second card is, "deck" included |
| Actions.DeckDraws | gui.py:301-310 | two deck draws, deck-then-colour and colour-then-deck each get their own message, in draw order |
| Actions.SameColourPair | gui.py:311-312 | two cards of one non-wild colour are reported as a pair of that colour |
| Actions.TwoColours | gui.py:313-314 | two different colours, the first not wild, are reported one by one in draw order |
| Actions.MalformedCardDraw | gui.py:296-322 | a two-card draw is shown as the action itself exactly when its first card is not wild and either card is neither a colour nor "deck" (reading `.value` of that card raises) |
| Actions.KeptTicketsIsSum | gui.py:315-317 | a destination draw with three numeric counts reports their sum |
| Actions.MessageDeterminesKind | gui.py:288-317 | each message kind arises only from its action kind, so the log never reports one kind of move as another |
| Snapshots.CountPresent | gui.py:269-270 | the probe count never exceeds the number of probes |
| Snapshots.CountPresentIsCardinality | gui.py:269-270 | the count is the number of distinct probe cities present in the city index |
| Snapshots.PresentSnoc | gui.py:268-269 | one more probe city, not probed before, adds one to the cities found exactly when the index holds it |
| Snapshots.CountPresentWitness | gui.py:269-270 | a positive count has a probe city in the index; a count below four has a probe city missing from it |
| Snapshots.MapTypeFor | gui.py:266-283 | no city index gives USA; Europe needs a European probe city present and a USA probe city missing |
| Snapshots.MapTypeDecision | gui.py:266-283 | Europe exactly when a city index exists and strictly more European than USA probes are in it; no index gives USA |
| Snapshots.TieGivesUsa | gui.py:272-279 | equal counts pick the USA map |
| Snapshots.AgentType | gui.py:203-224 | a non-empty label needs an agent entry; with an entry, the game's option name wins, else the table name or `"Agent {id}"` (DefaultAgentName) |
| Snapshots.DefaultAgentName | gui.py:213-224 | a known agent id gets its table name, any other id `"Agent "` followed by its decimal digits; the label is never empty |
| Snapshots.AgentTypeEmptyIff | gui.py:203-224 | with non-empty option names, the agent label is empty exactly when the player has no agent entry |
| Snapshots.MaxTurn | gui.py:163 | the snapshot turn is at least every player's turn and equals one of them |
| Snapshots.ConnectionsFromMembers | gui.py:180-183 | a city contributes exactly its neighbours that sort after it |
| Snapshots.ConnectionsMembers | gui.py:179-183 | a pair is a connection exactly when the game lists it and its first city sorts first |
| Snapshots.ConnectionsNoDuplicates | gui.py:180-183 | with distinct cities and neighbour lists, no connection appears twice, nor with its reverse |
| Snapshots.ConnectionsFromNoDuplicates | gui.py:181-183 | one city's connections are distinct when its neighbour list is |
| Snapshots.RouteInfoKeys | gui.py:186-199 | `route_info` has exactly the keys `"c1-c2"` of the connections |
| Snapshots.RouteInfoLastWriteWins | gui.py:186-199 | each key holds the routes of the last connection written under it, copied in `route_lookup` order |
| Snapshots.RouteInfoKeyInjective | gui.py:186 | with hyphen-free city names, different connections get different keys |
| Snapshots.FirstHyphenAfterName | gui.py:186 | the first hyphen of a key built from a hyphen-free name sits right after that name |
| Snapshots.RouteInfoCopiesLookup | gui.py:184-199 | with hyphen-free names and distinct connections, every connection's entry is its own route list |
| Snapshots.SnapshotOf | gui.py:154-240 | no snapshot exactly when there are no players; otherwise one record per player, the current player index copied, and an action entry exactly for a non-empty action |
| Snapshots.SnapshotProperties | gui.py:163-237 | connections are exactly the listed pairs in increasing name order; one key per connection; players are copied in game order; the turn is the maximum; an action entry exists exactly for a non-empty action |
| Snapshots.CollectConnections | gui.py:179-199 | the two nested loops build exactly the connection list and `route_info` that the pure definitions give |
| Snapshots.CollectFrom | gui.py:181-199 | the inner loop over one city's neighbours appends that city's new connections and keeps `route_info` in step with the list |
| Snapshots.CopyPlayers | gui.py:202-237 | the player loop copies every player, in order, into its record |
| Snapshots.BuildSnapshot | gui.py:154-240 | the record built by the loops is the specified snapshot; it is missing exactly when there are no players, where `max` raises |
| ActionLog.Append | gui.py:880-883 | appending to a log of at most ten keeps the ten newest entries, with the new one last |
| ActionLog.RecordAll | gui.py:880-883 | a log within capacity stays within it, and snapshots without actions leave it as it is |
| ActionLog.RecordAllKeepsNewest | gui.py:880-883 | after any series of redraws the log is the ten most recent messages, oldest first, so it never exceeds ten |
| ActionLog.NewestFirst | gui.py:885-888 | the panel shows `min(5, length)` entries, entry `i` being the `i`-th newest |
| Geometry.LineDistance | gui.py:567 | the distance is the Euclidean length from 1 on and exactly 1 below that |
| Geometry.SegmentCount | gui.py:577-581 | the dash count is at least 1; above 1 it is within the request and fits whole units; it is the largest such count |
| Geometry.DashLayout | gui.py:583-592 | dashes and gaps keep the 6:4 ratio, and the dashes and gaps sum exactly to the distance |
| Geometry.ScaledCover | gui.py:583-592 | scaling the dash and the gap by `distance / total` makes them cover the distance exactly |
| Geometry.DashSegments | gui.py:594-617 | exactly the computed number of dashes, all the same length with equal gaps, the first at the start and the last ending at the end point |
| Geometry.LayDashes | gui.py:594-617 | the dash loop lays `count` dashes of equal length with equal gaps, from the start point to the end point |
| Geometry.TrackOffset | gui.py:518-542 | 0 exactly for a lone track; otherwise +5 exactly for track 0 and -5 for the rest |
| Geometry.ClaimOffset | gui.py:726-730 | 0 exactly for a single claim; otherwise +5 exactly for claim 0 and -5 for the rest |
| Geometry.OffsetsAgree | gui.py:518-542 | as functions of group size and index, the track rule and the claim rule at gui.py:726-730 agree on non-empty groups: 0 for one, +5 for index 0 and -5 for every later index |
| Geometry.PartlyClaimedDoubleRoute | gui.py:518-542 | the two rules count different groups: on a double route with one track claimed, the free track is drawn at -5 and the lone claim on the centre line |
| Geometry.CanonicalKey | gui.py:481-485 | the key is one name, a hyphen, the other name |
| Geometry.CanonicalKeySymmetric | gui.py:481-485 | the route key ignores direction and matches the snapshot's `"c1-c2"` key |
| Geometry.SortedPair | gui.py:663 | the sorted pair holds the same two cities, in order |
| Geometry.SortedPairSymmetric | gui.py:663 | both directions of a claim fall under the same pair |
| Geometry.PairsInOrderFacts | gui.py:652-667 | each claimed pair is listed once, exactly when it has claims |
| Geometry.ClaimsStep | gui.py:663-667 | one more claim extends its own pair's list and no other |
| Geometry.GroupedStep | gui.py:665-667 | adding a claim keeps the dictionary equal to its specification |
| Geometry.GroupClaims | gui.py:652-667 | the loops build a key for every claimed pair, in first-claim order, each holding its claims in player order |
| Geometry.GroupPlayerClaims | gui.py:655-667 | the inner loop over one player's claims adds each claim to its pair's group, opening the group on its first claim |
| Geometry.ClaimRouteLength | gui.py:689-709 | the claimed route's length is the first track's length when that is at least 1, and exactly 1 when it is below 1 or unknown |
| Geometry.PlayerColourSlot | gui.py:713-715 | the colour slot is `player mod 4` and below 4 |
| Geometry.PlayerColourPeriodic | gui.py:713-715 | players four apart share a colour |
| Geometry.TrackStrokes | gui.py:504-555 | at most one stroke per track, each between the two city positions |
| Geometry.UnclaimedIndices | gui.py:504-511 | the unclaimed track positions, in increasing order, all of them |
| Geometry.TrackStrokesFacts | gui.py:504-555 | the j-th stroke draws the j-th unclaimed track, at its offset among all tracks, its length and its colour; claimed tracks draw nothing |
| Geometry.ConnectionStrokes | gui.py:465-555 | a connection missing a city position draws nothing; every stroke runs between the two positions |
| Geometry.ConnectionStrokesFacts | gui.py:465-555 | with route information, the j-th stroke draws the j-th unclaimed track at that track's offset, length and colour; without it, one grey one-dash stroke |
| Geometry.ClaimStrokesFacts | gui.py:712-743 | each claim on a pair is drawn once, in order, between the two positions, at the route length, in its player's colour slot, with the claim offset rule |
| Geometry.PairStrokes | gui.py:670-743 | a pair missing a city position draws nothing |
| Geometry.PairStrokesFacts | gui.py:670-743 | a pair with both positions draws one stroke per claim, in claim order, at the pair's route length (at least 1) |
| Viewer.CommandsAfterDrain | gui.py:360-367 | without a quit the command queue empties; a non-empty queue always shrinks |
| Viewer.DrainStopsAtFirstQuit | gui.py:360-367 | draining discards commands up to the first quit and leaves later ones queued; without a quit the queue empties |
| Viewer.ReplayFacts | gui.py:370-376 | one frame per dequeued snapshot, in order; each shows at most five entries; the log ends as the ten newest messages |
| Viewer.Replay | gui.py:370-376 | one frame per snapshot redrawn |
| Viewer.ReplayLog | gui.py:370-376 | the log after a series of redraws is the log recorded from the snapshots' actions in order |
| Viewer.ReplayFrames | gui.py:404-421 | one frame per redraw, showing its snapshot and at most five log lines |
| Viewer.Gui.constructor | gui.py:101-126 | a new viewer is not running, has no thread, empty queues, log and city table |
| Viewer.Gui.Initialise | gui.py:128-150 | a live thread is kept and reported as success; otherwise the table and game state are cleared; the start outcome decides the result, `running` and the thread |
| Viewer.Gui.SetMapType | gui.py:259-283 | the European table exactly when the map decision says Europe, else the USA table |
| Viewer.Gui.UpdateGameState | gui.py:152-242 | nothing changes unless running on a live thread; then the table is chosen only if empty, and at most one snapshot is queued |
| Viewer.Gui.Shutdown | gui.py:244-257 | a running viewer queues a quit; a thread that ends in time has drained it, redrawn every queued snapshot in order and stopped; otherwise the queues' snapshots, the game state, the log and the frames are untouched; the city table never changes; `running` is false afterwards |
| Viewer.Gui.UpdateDisplay | gui.py:404-421 | a redraw logs the snapshot's action and shows the five newest lines; no game state draws nothing |
| Viewer.Gui.DrainCommands | gui.py:360-367 | the command queue ends as specified, and `running` drops exactly when a quit was queued |
| Viewer.Gui.DrainUpdates | gui.py:370-376 | the update queue empties in FIFO order, the game state is the last snapshot (or unchanged), and the frames are the replay |
| Viewer.Gui.ApplyUpdate | gui.py:372-374 | one dequeue: the oldest snapshot becomes the game state, is logged and redrawn |
| Viewer.Gui.Tick | gui.py:354-385 | one loop pass: a window close or a queued quit stops the loop, the update drain still runs, and a stopped loop ends the thread |
| TreeSampler.ChildAt | graph.py:105 | a child's path is its parent's path plus its index |
| TreeSampler.Mean | graph.py:47 | the mean times the visits is the value, and it is 0 when unvisited |
| TreeSampler.Clamp | graph.py:81 | the ratio is clamped into [0, 1] |
| TreeSampler.Bucket | graph.py:82-91 | each colour holds exactly its half-open band: above 0.8 red, 0.6 to 0.8 salmon, and so on, a boundary value taking the cooler colour |
| TreeSampler.BucketMonotone | graph.py:82-91 | a higher ratio never gets a cooler colour |
| TreeSampler.ShadeOf | graph.py:79-93 | a child is never light blue, and an unvisited child is white |
| TreeSampler.ShadeFollowsMean | graph.py:79-93 | unvisited children are white; otherwise the colour is the bucket of the clamped mean |
| TreeSampler.SumItems | graph.py:73 | `sum` succeeds exactly when every element is a number, and then gives the total of those numbers |
| TreeSampler.EdgeLabel | graph.py:67-76 | "No action" exactly for an empty action; a claim labels cities 1 and 2 and needs three elements; a card draw is "Draw Cards"; any other kind is labelled exactly when `action[1:3]` is numeric, with "Draw Dest n" where n is 0, `action[1]` or `action[1] + action[2]` for one, two or more elements |
| TreeSampler.DestinationCountsDiffer | graph.py:73 | the tree label adds two counts where the action log (gui.py:316) adds three |
| TreeSampler.InsertOrdered | graph.py:45-49 | inserting a new child index keeps the list in sort order |
| TreeSampler.SortByMeanUpToCorrect | graph.py:45-49 | the sort is a permutation of the indices, in sort order |
| TreeSampler.SortByMeanUpToPermutes | graph.py:45-49 | the sort lists each of the first `n` indices exactly once |
| TreeSampler.SortByMean | graph.py:45-49 | the sort lists as many indices as there are children |
| TreeSampler.SortByMeanCorrect | graph.py:45-49 | every child appears exactly once, best mean first, with ties kept in original order |
| TreeSampler.SelectChildren | graph.py:52-62 | at most `k` children are all kept in sorted order; above `k`, exactly `k` distinct ones: the top three, then `k - 3` others from the rest |
| TreeSampler.SelectionIsKept | graph.py:52-62 | read as a set, the selection keeps all children, or exactly `k` including the top three |
| TreeSampler.UnlabelledChild | graph.py:67-74 | a label that raises implies a malformed node in the tree |
| TreeSampler.CapacityStep | graph.py:38-42 | the node bound `1 + k + ... + k^h` equals `1 + k` times the bound one level down |
| TreeSampler.CapacityIsGeometric | graph.py:38-42 | each level of the cap adds `k^h` nodes to the bound, so it is `1 + k + ... + k^h` |
| TreeSampler.SumRoomAppend | graph.py:105 | the room of a worklist grows by the room of each appended node |
| TreeSampler.ChildIndicesAppend | graph.py:97-102 | adding a node adds its index to its parent's drawn children only |
| TreeSampler.ChildIndicesGrow | graph.py:97-102 | drawing child `c` of `p` adds `c` to `p` and changes no other vertex |
| TreeSampler.DrawingGrows | graph.py:97-105 | adding an undrawn child keeps the graph well formed: one node per path, one edge from its parent, breadth-first order |
| TreeSampler.AddChild | graph.py:64-105 | drawing one selected child keeps the expansion invariant, including the node-count budget |
| TreeSampler.BeginExpansion | graph.py:38-62 | popping a node shallower than the depth cap starts its expansion with nothing drawn below it |
| TreeSampler.SkipAtCap | graph.py:41-42 | a node at the cap is popped and never expanded |
| TreeSampler.EndExpansion | graph.py:64-105 | after its last selected child, a node's drawn children are its selection |
| TreeSampler.SetOfDistinct | graph.py:56-60 | a selection of distinct indices has as many members as entries |
| TreeSampler.Visit | graph.py:38-105 | one turn of the worklist loop keeps the walk invariant: a node at the cap is skipped, any other has exactly its selection drawn; it fails only on an unlabelable action |
| TreeSampler.DrawChildren | graph.py:65-105 | the loop over the selection draws each selected child with its edge and enqueues it, keeping the expansion invariant, or stops at an unlabelable action |
| TreeSampler.Sample | graph.py:25-105 | the root is first and light blue; every node is a real tree node with its visits, mean and colour, at depth at most the cap; each non-root node has exactly one incoming edge, from its parent, with its action's label; nodes appear in nondecreasing depth; every node shallower than the cap shows its kept selection and none at the cap has children; at most `1 + k + ... + k^maxDepth` nodes; it raises only when some action cannot be labelled |

## Left out

- Thread lifecycle: `threading.Thread`, the ready event, `join` and the daemon flag are not modelled. The thread is the boolean `threadAlive`. How `initialise` and `shutdown` end is an input: a `StartOutcome`, and whether the join finishes in time.
- Viewer.Gui.Initialise: a thread that misses the five-second wait may still set `running` later. The model keeps `running` unchanged in that case.
- Viewer.Gui.Shutdown: a thread that finishes in time is modelled as running exactly one more loop pass before its loop test. A window close during that pass is not modelled.
- Viewer.Gui.Tick: the pygame event pump is reduced to whether a window-close event arrived. The 30 fps clock is not modelled.
- All pixel-level pygame work is left out: the display, fonts, lines, circles, rectangles and blits. A redraw is recorded as a `Frame` holding the snapshot and the action lines shown.
- Geometry.LineDistance: `sqrt`, the perpendicular unit vector and the `int()` truncation of pixel coordinates are not modelled. The Euclidean length is an input, and dashes are positions along the line.
- Geometry.DashSegments: pixel positions are not rounded, so the dashes are exact reals.
- Geometry.ClaimStrokesFacts: the conversion of a colour name to a colour (`Colour[name.upper()]`, else grey, gui.py:717-721) is not modelled; a claim stroke keeps the colour item as the game gave it.
- Colour and text rendering are left out: the RGB colour tables and the `.value` names of colours live outside this code. A message is its template choice plus its arguments.
- The city coordinate tables (gui.py:11-99) are static data. They are constructor parameters, and only the choice between them is modelled.
- The `claimed_routes_with_idx` dictionary in `_draw_map` (gui.py:447-461) is never used and is not modelled.
- Exception printing is not modelled. Every `try/except` becomes an explicit error path: Fallback, None or Raised.
- The module-level singleton wrappers (gui.py:899-918) only delegate and are not modelled.
- `_draw_player_info`, `_draw_player_stats` and `_draw_cities` are pure drawing and are not modelled.
- Python values are limited to strings, integers and colour enum members. `bool`, `None` and floats inside action tuples are not modelled. So `+` and `sum` on those values are not modelled either.
- Snapshots.RouteInfoCopiesLookup: stated only for hyphen-free city names. Two different pairs can share a key when a name contains `-`. With real city names this does not happen.
- TreeSampler.Mean / Bucket / SortByMean: a node's `value` and the division `value / visits` are exact reals, not Python floats. Rounding at the 0.2, 0.4, 0.6 and 0.8 colour thresholds and in ties between sort keys is not modelled, and `Mean`'s `mean * visits == value` holds only for exact reals.
- TreeSampler.Sample: `random.sample` is a nondeterministic choice of `k - 3` distinct children from the rest. The random generator and the order it returns are not modelled.
- TreeSampler.Sample: `k >= 3` is required. With fewer and too many children, `random.sample` gets a negative size and raises (graph.py:56-59).
- TreeSampler.Sample: the depth in the worklist is the path's length, since each child is enqueued at its parent's depth plus one.
- TreeSampler.Sample: node identity `id(node)` is the path from the root, which is unique in a tree.
- The matplotlib/networkx layout, drawing, title and `savefig` (graph.py:107-132) are not modelled. The two-decimal label formatting is not modelled either.
- `TicketToRideVisualiser` (graph.py:135-193) is marked outdated, only plots, and is not modelled.
