# V³ Bordeaux monitor — movement estimator model

This project models the computational core of a dashboard that watches the
Bordeaux V³ bike-share network. The dashboard fetches the live station feed.
It normalises each GeoJSON feature into a station row and filters the rows in
the sidebar. It also keeps, per session, a one-hour history of full-fleet
snapshots. From that history it estimates "movement" per station by comparing
the oldest retained snapshot with the newest one.

Modules:

- `Seqs` (seqs.dfy): order-preserving `Filter` and the `SubsequenceOf` relation. The history prune, the live filters and the movement filter all use them.
- `Feed` (feed.dfy): normalisation of one feature (`Normalise`) and of a whole batch (`Process`, `GetLiveData`). Covers defaults for absent fields, the three colour bands, the marker size and the retention rule. Any conversion failure discards the whole batch. The sidebar filters are here too.
- `Estimator` (estimator.dfy): the two-point estimator `Flux`. It outer-joins the two snapshots on station name, with an absent station counting 0. It computes `Delta` and `Mouvement = |Delta|`, drops unchanged stations, labels rows Dépôt/Prise and ranks by `Mouvement`, largest first.
- `Session` (session.dfy): the class `History`. It holds the session's `seq` of timestamped snapshots, with `Append`, `Prune`, `Clear` and the refresh `CalculateRealtimeFlux`. The wall clock is the parameter `now`, in integer seconds; the horizon is 3600 s.
- `Summary` (summary.dfy): the flux metrics (total movement, stations affected, deposits, withdrawals) and the top-20 chart.

Facts about the program that the model keeps:

- One record that fails to convert empties the whole batch. Nothing is skipped record by record.
- The estimator compares the first and the last entries in insertion order. It does not sort them by timestamp.
- The ranking's sort is not stable, so rows with equal movement have no defined order.
- Movement is estimated only by comparing two snapshots.

## Model

| member | source | states |
|---|---|---|
| `Feed.Normalise` | app.py:95-126 | A feature fails exactly when `properties` or the coordinates are missing, a numeric field does not convert, or a kept station has fewer than two coordinates. It is dropped exactly when it converts but is neither `CONNECTEE` nor reports bikes or places (an absent state counts as disconnected). A kept row takes name `Inconnue` and counts 0 where absent, lat/lon from coordinates 1/0, and its colour band and marker size from the bike total |
| `Feed.Process` | app.py:92-128 | A successful batch has no more rows than features, and every row's colour and size agree with its total |
| `Feed.ProcessAppend` | app.py:94-126 | Processing one more feature extends the batch with that feature's outcome, which is the append loop's step |
| `Feed.ProcessFails` | app.py:86-131 | The batch is discarded exactly when some feature fails to normalise |
| `Feed.ProcessRows` | app.py:115-128 | A successful batch contains exactly the rows of the kept features |
| `Feed.GetLiveData` | app.py:84-131 | The append loop computes the batch's rows, or the empty table when the request, the `features` key or any record fails; every row is consistently styled |
| `Feed.LiveFilteredSpec` | app.py:249-251 | The sidebar filters keep exactly the rows with `Total >= min_bikes`, and with `elec > 0` when electric-only is set. Every copy of a kept row survives and none of a rejected one, and the kept rows stay in their original order |
| `Estimator.Lookup` | app.py:164-168 | A station absent from a snapshot counts 0; with unique names it is the station's own total |
| `Estimator.KeysMember` | app.py:164 | The outer join's keys are the union of both snapshots' stations |
| `Estimator.Rank` | app.py:183 | The ranking is a permutation of its input, non-increasing by `Mouvement` |
| `Estimator.Flux` | app.py:171-183 | The flux table is non-increasing by `Mouvement`, and every row has `Mouvement > 0` |
| `Estimator.FluxRowsAreDeltas` | app.py:164-181 | Each row is a station of one of the two snapshots and has `Total_prev`/`Total_curr` from the oldest/newest snapshot (0 when absent), `Delta = curr - prev`, `Mouvement = abs(Delta) > 0`, the label Dépôt iff `Delta > 0` and Prise iff `Delta < 0` |
| `Estimator.FluxStations` | app.py:164-175 | A station is in the table iff it is in either snapshot and its total differs between them |
| `Estimator.FluxOnce` | app.py:164-175 | With unique names in both snapshots, no station appears twice |
| `Estimator.FluxEmpty` | app.py:175-178 | The table is empty iff no station of either snapshot changed its total |
| `Session.RetainedSpec` | app.py:149-154 | Pruning keeps exactly the entries with timestamp strictly after the cutoff. Every copy of a kept entry survives and none of a dropped one, and the kept entries stay in their original relative order |
| `Session.RetainedTwice` | app.py:149-154 | Pruning twice equals pruning once at the later cutoff, so a pruned entry never comes back |
| `Session.RetainedSuffix` | app.py:149-154 | In a chronological history, pruning removes a prefix of oldest entries |
| `Session.RefreshChronological` | app.py:135-154 | If the clock does not go backwards, append-then-prune keeps the history chronological |
| `Session.History.constructor` | app.py:137-139 | A session's history starts empty |
| `Session.History.Append` | app.py:141-147 | The snapshot is added at the end with its timestamp; nothing else changes |
| `Session.History.Prune` | app.py:149-154 | The history becomes the entries younger than `now - 1h`, in order |
| `Session.History.Clear` | app.py:306-308 | The reset button empties the history |
| `Session.History.CalculateRealtimeFlux` | app.py:133-183 | Called only with a non-empty live table, as at app.py:320. After a refresh the history is: the earlier entries younger than `now - 1h`, in order, followed by the new snapshot. With fewer than two entries the result is empty. Otherwise it is the estimator applied to the oldest retained snapshot and the current one |
| `Session.History.ResetAndRefresh` | app.py:305-321 | Called with a non-empty live table. A reset followed by its refresh leaves one entry and reports no movement |
| `Summary.KindsPartition` | app.py:327-328 | Deposits plus withdrawals equal the number of rows |
| `Summary.SumRank` | app.py:183 | Ranking does not change the total movement |
| `Summary.SummaryOfFlux` | app.py:325-328 | `depots + prises = stations_bouge = len(flux)`. `total_mouvements >= stations_bouge`. `total_mouvements` also equals the movement summed over every joined station, with unchanged ones contributing 0 |
| `Summary.Chart` | app.py:340 | The chart holds the first `min(20, len(flux))` rows; on a ranked table, no row left out moved more than a charted one |

`Session.TwoPointScenario` replays three refreshes that see 10, 7 and then 12 bikes at one station. The table reports a single deposit of 2, so the intermediate withdrawal is invisible to the two-point method.

## Left out

- The HTTP request, JSON decoding and raising for HTTP status are not modelled. Their outcome is the parameter `Response`, where `Unavailable` stands for any failure before the body is read.
- The flux computation on an empty live table is not modelled. The caller skips that case (app.py:320), and pandas would raise on the merge.
- Python's integer conversion of a feed value is not modelled. Each numeric field arrives already classified as absent, converted to an integer, or rejected (`NumField`).
- The `st.cache_data` 60-second cache, the refresh buttons' cache clearing and Streamlit's rerun are not modelled; they are framework plumbing.
- Session storage is not modelled. Deleting the history key and holding an empty list behave the same for every reader, so `Clear` empties the sequence.
- Wall-clock time (`datetime.now()`) is not read; it is the parameter `now`, in whole seconds. Sub-second resolution is not modelled.
- The history caption (app.py:312-318) is display only and is not modelled.
- The live metrics and the occupancy percentage (app.py:254-262) are left out: they are display sums and floating-point division.
- The station search (app.py:275-276) is left out. It is a case-insensitive regular-expression match from a foreign library.
- The CSS, map, chart, table rendering, logo and footer are left out; they are presentation only.
- enregistreur.py (the SQLite collector and its polling loop) is I/O plumbing and is not modelled. No code reads its table back, so the consecutive-difference movement method has no implementation to model.
- pandas details are not modelled: `fillna` yields floats, the outer merge sorts its keys, and the `timestamp` column is copied into each snapshot. Counts are integers and snapshots are sequences of rows.
- Estimator.Flux: duplicate station names within one snapshot are not modelled as pandas handles them. Each occurrence of a name becomes its own join key, so the model emits one row per occurrence, and every copy carries the totals of the name's first occurrence in each snapshot. pandas would instead pair every occurrence in one snapshot with every occurrence in the other. For example, an oldest snapshot `[("A", 3)]` and a newest `[("A", 1), ("A", 5)]` give the model two identical withdrawals of 2, while pandas gives a withdrawal of 2 and a deposit of 2. Duplicates arise in the live feed whenever two features lack `nom`, since both take the default name `Inconnue` (app.py:99). The per-station lemmas that need it require unique names.
- Feed.Normalise: JSON null property values are not modelled separately. A null `nom` would give the row the name None rather than a string, and the model has no such name. A null `coordinates` value fails only when the station is kept, exactly like a list with fewer than two numbers, so it is represented as `Some([])`. `None` stands only for a missing `geometry` or `coordinates` key, which fails every feature. A null `etat` behaves like `DECONNECTEE`, and a null count fails conversion like `NotANumber`.
- Estimator.Rank: does not promise any order among rows with equal `Mouvement`. The source's sort is not stable. The function happens to keep join order, but no contract relies on that.
