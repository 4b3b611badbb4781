# PlottyN core in Dafny

PlottyN is a Noodles server that draws 3D plots. A client asks for a plot through a remote method. The server stores the plot's data in a table and turns each table row into one rendering instance, which is a matrix holding position, colour, a reserved column and scale. All plots share one domain, an affine map from a data-space box to a render-space box. This project models the part of PlottyN that is not scene plumbing:

- **Stable-key row store.** `SpecificTable` (module `SpecificTables`) keeps:
  - parallel per-column vectors;
  - a key counter that only grows;
  - a row→key list and a key→row map;
  - caches of the keys and rows;
  - named selection slots.

  The class supports insert, update, delete and reset, plus the three-way selection algebra:
  - action 0 replaces the slot;
  - an action below 0 subtracts from it;
  - an action above 0 stores the sorted union.

  `SimpleTable` (module `SimpleTables`) is the table the plots read. Its constructor and its `modify_selection` are modelled. The selection algebra both tables share is in `Selections`.
- **Modulus broadcasting and instancing.** Attribute lists that are short or empty are replaced by a one-element default and read at index `i % len`. The modules are:
  - `ScatterCores`: both `build_instances` overloads;
  - `DataSources`: `for_columns`;
  - `PointPlots`: the nine-column layout and the bounds request;
  - `LineSegmentPlots`: one tube instance per pair of points, and the 1-based face table rebased to 0-based;
  - `TablePlots`: the cache rebuild of a row range clamped to the table, reading source columns by index, and colour-map lookup by `upper_bound`.
- **Domain and small state machines.**
  - `Interpolation`: `lerp`.
  - `Domains`: `Domain::transform`, the `SharedDomain` auto-update gate, and the `set_domain` method body.
  - `Utility`: the componentwise `min_max_of`.
  - `PlotRegistry`: plot-id allocation.
  - `Arguments`: the argument shapers for colours, scales and forced vec3 values.

Stateful parts are classes whose methods change their fields, with loops proved against specification functions. Pure parts are functions with lemmas.

Qt signals are recorded rather than sent:
- `SpecificTable` appends each one to an event log.
- `SharedDomain` counts the `domain_updated` / `labels_updated` signals.
- `TablePlot` logs the instance rebuilds it asks for.
- `SimpleTable` logs the `ask_update_selection` requests.

Numbers are exact reals. Float rounding is not modelled. The ε test of `ask_update_input_bounds` compares squared distances, which is exact for reals.

The model follows the code as written, including where it behaves unexpectedly:
- `handle_deletion` looks keys up with `operator[]`. That inserts every unknown key into the key→row map, mapped to row 0, and row 0 is then erased. The map is never rebuilt after a deletion. Both defects are listed under "## Findings".
- The documentation of the `new_line_segment_plot` method (src/plotty.cpp:413-414) says that the points are connected in pairs, a to b and c to d. Yet each `LineSegmentPlot` instance is built from the i-th point alone, and there are half as many instances as points. There is no corrected member: the instance's rotation column is always (0, 0, 0, 1) (src/linesegmentplot.cpp:104-107), so no instance can be oriented from a to b, and the source defines no paired geometry to model.
- The `LineSegmentPlot` constructor asks for bounds even when there are no points.
- The `set_domain` method switches auto updates off before it asks to set the domain, so the request is always ignored.

## Model

| member | source | states |
|---|---|---|
| Cbor.ToArray | src/simpletable.h:165 | `toArray` of an array value gives its elements; of any other value, an empty array |
| Cbor.At | src/simpletable.h:51-60 | reading an array at an index inside it gives that element; outside it, Undefined |
| Cbor.Truncate | src/simpletable.h:258 | the double→integer conversion truncates toward zero: the result is within 1 of d, on the side of zero |
| Sequences.Fit | src/simpletable.h:179-184 | the padded/truncated list has exactly n elements: the original ones first, then the filler; `std::vector::resize(n)` (e.g. src/tableplot.cpp:144-148) is the same edit and is modelled by it |
| Sequences.FitLoop | src/simpletable.h:179-184 | the `pop_back` loop followed by the append loop yields a list of exactly n elements, equal to `Fit` |
| Sequences.Erase | src/simpletable.h:76-85 | `erase(begin()+i)` removes one element; the elements after i shift down by one |
| Sequences.KeepErase | src/simpletable.h:302-311 | erasing rows from the largest down removes exactly the chosen rows of the original, because earlier erases never shift a row still to be erased |
| Sequences.KeepLength | src/simpletable.h:297-311 | removing k distinct in-range rows shortens a list by exactly k |
| Selections.SortUnique | src/simpletable.h:297-299 | sort then `unique`/`erase` yields a strictly increasing list whose elements are exactly the input's |
| Selections.StrictlyIncreasingCanonical | src/simpletable.h:400-403 | two strictly increasing lists with the same elements are equal |
| Selections.SortUniqueDeterministic | src/simpletable.h:400-403 | the sorted, deduplicated list depends only on the set of inputs |
| Selections.FilterProperties | src/simpletable.h:375-384 | the kept list is a subsequence of the current rows and contains exactly the rows not in the delete set |
| Selections.FilterStrictlyIncreasing | src/simpletable.h:375-384 | filtering a strictly increasing list keeps it strictly increasing |
| Selections.Difference | src/simpletable.h:375-384 | the subtraction loop keeps, in order, each current row that is not among the keys |
| Selections.NextSelectionAbsent | src/simpletable.h:346-357 | with no slot, a negative action issues nothing and any other action stores the keys verbatim |
| Selections.NextSelectionReplace | src/simpletable.h:363-369 | action 0 stores exactly the keys, so repeating it changes nothing |
| Selections.NextSelectionSubtract | src/simpletable.h:371-391 | a negative action stores a subsequence of the current rows: the rows that are not keys |
| Selections.NextSelectionUnion | src/simpletable.h:393-410 | a positive action stores a strictly increasing list whose elements are exactly the keys plus the current rows |
| Selections.NextSelectionUnionCanonical | src/simpletable.h:393-410 | the union result does not depend on the order or repetition of either input |
| Selections.UnionThenSubtract | src/simpletable.h:371-410 | a union followed by a subtraction of the same keys leaves the current rows minus the keys, and restores a sorted slot that was disjoint from the keys |
| SimpleTables.StoredColumn | src/simpletable.cpp:238-247 | a loaded column is stored as reals when it has any, otherwise as strings, and keeps its name |
| SimpleTables.IdentityMap | src/simpletable.cpp:254-256 | after the loop, exactly the keys 0..n-1 are present and key i maps to row i |
| SimpleTables.SimpleTable.constructor | src/simpletable.cpp:232-257 | no columns gives an empty table; otherwise every column is stored as `StoredColumn` gives it, the counter is the first column's size, the row→key list is 0..n-1, and the two maps are mutually inverse |
| SimpleTables.SimpleTable.ModifySelection | src/simpletable.cpp:260-346 | subtracting from a missing slot asks for nothing; otherwise one update is asked for, holding the keys (replace, or a new slot), a subsequence of the rows without the keys (subtract), or the sorted union (union) |
| SpecificTables.AsKey | src/simpletable.h:108 | the int64 key converted to the uint64 map key: unchanged when non-negative, moved up by 2^64 when negative |
| SpecificTables.NewKeyMap | src/simpletable.h:163 | the map entries a batch adds: key first+j maps to row firstRow+j, and no other key is added |
| SpecificTables.LastWriter | src/simpletable.h:256-279 | the last of the first n update entries whose key maps to row r, or none; no later entry writes r |
| SpecificTables.ApplyUpdates | src/simpletable.h:256-279 | applying the update entries keeps the shape of the table: still the same number of columns, each with the same number of rows |
| SpecificTables.ApplyUpdatesCells | src/simpletable.h:256-279 | after the update loop each cell holds the last entry that named its row, padded or truncated; a row no entry named keeps its cells |
| SpecificTables.StoredSelection | src/simpletable.h:324-331 | the slot holds s unless s has no rows and no ranges, in which case the slot is removed; other slots are untouched |
| SpecificTables.ModifiedSlot | src/simpletable.h:324-409 | a modified slot whose resulting row list is empty is removed; a non-empty one is stored under the slot name |
| SpecificTables.ColumnNames | src/simpletable.h:202-204 | the headers are the names of the fitted columns, in order |
| SpecificTables.TransposeColumns | src/simpletable.h:206-218 | one array row per row index below the first column's length; entry c is column c at that index, Undefined past its end |
| SpecificTables.TransposedColumns | src/simpletable.h:206-220 | inserting the transposed rows gives each column back its own values, padded with Undefined |
| SpecificTables.SpecificTable.RowAt | src/simpletable.h:144-148 | `get_row` / `fill_array`: row r read across every column |
| SpecificTables.SpecificTable.NextCounter | src/simpletable.h:119-123 | returns the old counter and increments it |
| SpecificTables.SpecificTable.DecodeArray | src/simpletable.h:51-60 | every column c grows by entry c of the array, Undefined past its end |
| SpecificTables.SpecificTable.DecodeArrayAt | src/simpletable.h:62-72 | row r of every column c becomes entry c of the array, and nothing else changes |
| SpecificTables.SpecificTable.InsertRow | src/simpletable.h:155-169 | one incoming row: takes the next key, appends it to the key list and the key cache, maps it to the new row, appends a cell to every column, and caches and returns the stored row |
| SpecificTables.SpecificTable.InsertAll | src/simpletable.h:155-169 | the insert loop: after it, every incoming row has been inserted, in order, as `InsertRow` states for each |
| SpecificTables.SpecificTable.CommonInsert | src/simpletable.h:150-172 | N rows get N fresh consecutive keys, none already present; each key maps to the row where its data went; every column grows by exactly N; returns the keys and the stored rows |
| SpecificTables.SpecificTable.FromHeaders | src/simpletable.h:175-187 | headers are truncated or padded with empty names to the column count; the initial rows get keys 0..N-1 |
| SpecificTables.SpecificTable.FromColumns | src/simpletable.h:189-221 | columns are truncated or padded to the column count; their names become the headers; the row count is the first column's length; column c holds its own values, padded with Undefined |
| SpecificTables.SpecificTable.HandleInsert | src/simpletable.h:242-246 | `common_insert`, then one row-updated signal carrying the new keys and the stored rows |
| SpecificTables.SpecificTable.HandleUpdate | src/simpletable.h:248-282 | unknown keys are skipped; a known key's row, padded and truncated to the header count, overwrites that row; the last entry for a row wins; other rows are unchanged; one signal carries the fixed rows |
| SpecificTables.SpecificTable.UpdateEntry | src/simpletable.h:256-279 | one update entry: a key not in the map leaves everything unchanged; otherwise the data and the cached row of the mapped row are overwritten |
| SpecificTables.SpecificTable.WriteRow | src/simpletable.h:274-276 | row r of the cached rows and of every column becomes the fitted row |
| SpecificTables.SpecificTable.EraseRow | src/simpletable.h:302-311 | row r is removed from the key cache, the cached rows, the key list and every column |
| SpecificTables.SpecificTable.ResolveKeys | src/simpletable.h:291-295 | each key resolves through `operator[]`; an unknown key resolves to row 0 and is inserted into the map |
| SpecificTables.ResolvedRows | src/simpletable.h:291-295 | one resolved row per key, in order: the mapped row, or 0 when the key is unknown |
| SpecificTables.SpecificTable.EraseRows | src/simpletable.h:302-311 | erasing ascending rows from the largest down leaves exactly the other rows, in order, so every list shrinks by the number of rows |
| SpecificTables.SpecificTable.HandleDeletion | src/simpletable.h:284-314 | the distinct resolved rows are erased from the key list, the caches and every column, which shrink by their number; the map only gains the `operator[]` entries; one deletion signal |
| SpecificTables.StaleMapAfterDeletion | src/simpletable.h:284-314 | as written: with keys 0, 1, 2, deleting key 0 leaves the key list [1, 2] and the map unchanged, so key 1 still resolves to row 1, which holds key 2 |
| SpecificTables.UnknownKeyErasesRowZero | src/simpletable.h:293-295 | as written: deleting a key the map does not know resolves it to row 0, and row 0 is erased |
| SpecificTables.DeleteOneUnknownKey | src/simpletable.h:293-299 | as written: deleting any single key the map does not know erases row 0 |
| SpecificTables.DeleteOneKnownKey | src/simpletable.h:293-299 | deleting a single known key erases exactly its row and adds no map entry |
| SpecificTables.KnownKeys | src/simpletable.h:293-295 | the deletion keys the map knows: exactly those keys, as a subsequence of the deletion keys (in their order) |
| SpecificTables.KnownDeletedRowsExact | src/simpletable.h:291-299 | corrected: the erased rows are strictly increasing and are exactly the rows of the keys the map knows; an unknown key erases nothing |
| SpecificTables.KeyMapOf | src/simpletable.h:108 | the key→row map rebuilt from a strictly increasing key list: key kl[r] maps to row r, and no other key is present |
| SpecificTables.KeepIncreasing | src/simpletable.h:302-311 | erasing rows keeps the key list strictly increasing, and leaves only keys it already held |
| SpecificTables.RebuiltMapFindsOwnRow | src/simpletable.h:284-314 | corrected: after a deletion, the map rebuilt from the surviving keys sends every surviving key to its own row and knows no deleted key |
| SpecificTables.SpecificTable.RebuildCache | src/simpletable.h:125-142 | the cached keys become the key list, and cached row r becomes data row r |
| SpecificTables.SpecificTable.HandleReset | src/simpletable.h:316-322 | the columns, the key list and the caches become empty; the counter keeps its value, so no key is reissued; one reset signal |
| SpecificTables.SpecificTable.HandleSetSelection | src/simpletable.h:324-331 | stores the selection, or drops the slot when the selection is empty; one selection signal |
| SpecificTables.SpecificTable.ModifySelection | src/simpletable.h:333-415 | subtracting from a missing slot does nothing; otherwise the slot is set to the keys (replace, or a new slot), to the rows without the keys (subtract), or to the sorted union (union) |
| DataSources.HasColumn | src/datasource.cpp:24-29 | true exactly when 0 <= i < column count |
| DataSources.GetDoublesAt | src/datasource.cpp:19-23 | empty for an absent column; otherwise the column's doubles |
| DataSources.MaxLength | src/datasource.h:30-43 | the row count is at least every span's length, and equals one of them (or 0 when there are no spans) |
| DataSources.SeatSpans | src/datasource.h:28-43 | a missing column gets a one-element span of its missing value; the row count is the longest span |
| DataSources.InvokeRows | src/datasource.h:45-55 | one invocation per row index, in ascending order; argument c is `spans[c][i % len]` |
| DataSources.ForColumns | src/datasource.h:23-56 | as many invocations as the longest span, at least one when a column is missing; a missing column always passes its missing value |
| Domains.Transform | src/plotty.cpp:141-143 | the per-axis lerp maps the input box's corners to the output box's corners |
| Domains.TransformKeepsBox | src/plotty.cpp:141-143 | a point inside the input box lands inside the output box |
| Domains.DefaultTransformIsIdentity | src/plotty.h:13-19 | the default domain is [-0.5, 0.5] in and out on every axis, and transforms every point to itself |
| Domains.UpdatedBoundsCases | src/plotty.cpp:164-180 | the update is ignored when auto is off, or when both bounds are within ε of the current ones; otherwise only the input box changes; the output box never moves |
| Domains.UpdatedBoundsIdempotent | src/plotty.cpp:164-180 | asking twice for the same bounds changes nothing the second time |
| Domains.SharedDomain.constructor | src/plotty.h:27-35 | default domain, auto updates on, axis titles "x", "y", "z" |
| Domains.SharedDomain.SetDomainAutoUpdates | src/plotty.cpp:154-156 | sets the auto flag |
| Domains.SharedDomain.AskSetDomain | src/plotty.cpp:158-162 | ignored unless auto is on; otherwise replaces the whole domain and signals once |
| Domains.SharedDomain.AskUpdateInputBounds | src/plotty.cpp:164-180 | applies the gate of `UpdatedBounds`, signalling exactly when the domain changes |
| Domains.SharedDomain.SetAxisLabels | src/plotty.cpp:182-189 | sets the three titles and signals once |
| Domains.SetDomainRequest | src/plotty.cpp:324-347 | auto updates end up off, the stored domain is unchanged and no domain signal is sent; the titles are the first three names, empty when missing |
| Interpolation.Lerp | src/plot.h:20-23 | x0 maps to y0 and x1 maps to y1 |
| Interpolation.LerpWithinRange | src/plot.h:10-23 | for x in [x0, x1] the result lies between y0 and y1 |
| Interpolation.LerpIdentity | src/plot.h:21-23 | interpolating a range onto itself is the identity |
| Interpolation.LerpAffine | src/plot.h:21-23 | the result moves from y0 in proportion to x - x0 |
| Utility.MinFoldProperties | src/utility.cpp:7-13 | each component of the min fold is at most every element's and the accumulator's, and equals one of them |
| Utility.MaxFoldProperties | src/utility.cpp:7-13 | each component of the max fold is at least every element's and the accumulator's, and equals one of them |
| Utility.MinMaxOf | src/utility.cpp:3-16 | zero vectors for an empty span; otherwise lmin <= every element <= lmax, each component attained by some element, and lmin <= lmax |
| ScatterCores.ModulusIndexed | src/scattercore.cpp:43-46 | the value read is an element of the span; indices inside the span read directly; a one-element span always gives its element |
| ScatterCores.SeatSpan | src/scattercore.cpp:48-51 | never empty: the source when it has elements, else the single default |
| ScatterCores.BroadcastOneToOne | src/scattercore.cpp:33-39 | reading a span of length N at rows 0..N-1 gives the span itself |
| ScatterCores.InstanceOf | src/scattercore.cpp:36-39 | one instance: transformed position with w 1, colour with w 1, column 2 `(0,0,0,1)`, scale with w 1 |
| ScatterCores.ScatterCore.constructor | src/scattercore.h:6-10 | a new core holds no instances |
| ScatterCores.ScatterCore.BuildFromVectors | src/scattercore.cpp:6-41 | zero points clears the instances; otherwise one instance per point, with empty colours or scales replaced by the default 1 and read at `i % len` |
| ScatterCores.ScatterCore.BuildFromArrays | src/scattercore.cpp:54-104 | zero px rows leaves exactly one instance with four `(0,0,0,1)` columns; otherwise every row 0..count-1 is rebuilt, each colour and scale channel defaulting (1, 0.05) and broadcasting independently |
| TablePlots.UpperBound | src/tableplot.cpp:34-37 | the first index whose key exceeds f: every key before it is at most f |
| TablePlots.ColorMapSampleCases | src/tableplot.cpp:30-46 | on a sorted map: white when empty, the first colour below the first key, the last colour at or above the last key, otherwise interpolation between the neighbours a.key <= f < b.key |
| TablePlots.AreSourcesValid | src/tableplot.cpp:48-64 | true exactly when x, y, z are columns, and colour and size are each negative or a column |
| TablePlots.SeatSource | src/tableplot.cpp:153-157 | a string column reads as one 0.0; a real column as its reals |
| TablePlots.Clamp | src/tableplot.cpp:136-137 | `std::clamp`: the result lies in [lo, hi] and equals v when v is already inside |
| TablePlots.ClampedRange | src/tableplot.cpp:126-141 | the clamped range stays within [0, num_rows) and is unchanged when it already fits |
| TablePlots.Grown | src/tableplot.cpp:144-148 | a cache grows to n only when shorter, keeping its entries; it is never shrunk |
| TablePlots.SentinelMinIsMinimum | src/tableplot.cpp:164-179 | the fold from the FLT_MAX sentinel is below every rebuilt point, and each component equals that of some point |
| TablePlots.SentinelMaxIsMaximum | src/tableplot.cpp:164-179 | the fold from the lowest-float sentinel is above every rebuilt point, and each component equals that of some point |
| TablePlots.FillRange | src/tableplot.cpp:188-192 | rows in [lo, hi) get the new value; other rows keep theirs |
| TablePlots.TablePlot.SetClear | src/tableplot.cpp:250-256 | the three caches are emptied and a full instance rebuild is asked for |
| TablePlots.TablePlot.RebuildPoints | src/tableplot.cpp:164-179 | rows in the range get their broadcast position; other rows are unchanged; the bounds are the sentinel folds over the range's points |
| TablePlots.TablePlot.GrowCaches | src/tableplot.cpp:144-148 | the three caches grow together to n rows when shorter |
| TablePlots.TablePlot.RebuildColors | src/tableplot.cpp:181-214 | rows in the range get white without a colour column, the broadcast grey of a real column, or a parsed string; other rows are unchanged |
| TablePlots.TablePlot.RebuildScales | src/tableplot.cpp:216-240 | rows in the range get 0.05 without a size column, or the broadcast real of a real column; a string size column writes nothing |
| TablePlots.TablePlot.RebuildCache | src/tableplot.cpp:103-248 | invalid sources change nothing; no rows clears the caches and asks for a full rebuild; otherwise the clamped range is rebuilt, its instances are requested and its bounds go to the domain; only the domain's box and signal count may change, so auto and the axis titles stay; one `domain_updated` signal is counted exactly when the bounds update applies, none when nothing is requested |
| TablePlots.TablePlot.RebuildRows | src/tableplot.cpp:121-248 | with valid sources and rows, the clamped range is rebuilt as `RebuildCache` states; the domain's auto flag and titles stay; one `domain_updated` signal exactly when the bounds update applies |
| TablePlots.TablePlot.RebuildRange | src/tableplot.cpp:136-248 | the caches grow to num_rows; rows in the range are rebuilt and the rest kept; one range rebuild is logged; the domain gets the range's bounds under its unchanged auto flag; the titles stay; one `domain_updated` signal exactly when the bounds update applies |
| TablePlots.TablePlot.RewriteRange | src/tableplot.cpp:151-248 | once the caches have grown: the loops over the range, the rebuild request and the bounds request; the domain's auto flag and titles stay; one `domain_updated` signal exactly when the bounds update applies |
| TablePlots.TablePlot.SetColumns | src/tableplot.cpp:67-84 | stores the sources and the colour map, then rebuilds every row; of the domain only the box and signal count may change; one `domain_updated` signal exactly when the bounds update applies |
| TablePlots.TablePlot.OnTableUpdated | src/tableplot.cpp:288-290 | a table change rebuilds every row; of the domain only the box and signal count may change; one `domain_updated` signal exactly when the bounds update applies |
| TablePlots.TablePlot.constructor | src/tableplot.cpp:259-284 | x, y, z = columns 0, 1, 2, no colour or size column, an empty colour map; the caches end with one row per shared position row (none for invalid sources), each holding its seated position, white and the 0.05 scale; two rebuild entries are logged (two full rebuilds without rows, none for invalid sources); the domain's box is the bounds update of the rows' sentinel folds, which the second rebuild repeats without effect; at most one `domain_updated` signal, from the first request, since the repeated request does not apply |
| PointPlots.FillChannels | src/pointplot.cpp:71-81 | each channel column has exactly num_points entries; entry i is that component of `src[i % len]` |
| PointPlots.PointColumnsReadBack | src/pointplot.cpp:58-116 | read through the mapping, the nine columns give back the positions and, for every colour and scale channel, num_points broadcast entries after an empty list is defaulted to (1,1,1) or (.02,.02,.02) |
| PointPlots.Layout | src/pointplot.cpp:56-116 | the columns are x, y, z, r, g, b, sx, sy, sz, and `next_column` counting up from 3 gives the mapping PX..SZ = 0..8 |
| PointPlots.MakeTable | src/pointplot.cpp:53-122 | the table is named "Point Table <id>" and holds the nine stored columns; the positions read back through the mapping |
| PointPlots.AskPointBounds | src/pointplot.cpp:130-133 | the bounds are asked for only when px is non-empty; the domain's auto flag and titles stay; one `domain_updated` signal exactly when px is non-empty and the update applies |
| PointPlots.PointPlot.RebuildInstances | src/pointplot.cpp:8-42 | builds from the mapped columns with the current domain; asks for the points' bounds only when px is non-empty and auto is on; the domain's auto flag and titles stay; one `domain_updated` signal exactly when that request applies |
| PointPlots.PointPlot.DomainUpdated | src/pointplot.cpp:192-194 | rebuilds the instances, with the same bounds request as `RebuildInstances`; one `domain_updated` signal exactly when that request applies |
| PointPlots.PointPlot.OnTableUpdated | src/pointplot.cpp:196-198 | rebuilds the instances, with the same bounds request as `RebuildInstances`; one `domain_updated` signal exactly when that request applies |
| PointPlots.PointPlot.constructor | src/pointplot.cpp:44-146 | table layout and mapping as above; bounds merged only when there are points; the instances are built once (one blank instance without points); the domain's auto flag and titles stay; at most one `domain_updated` signal, since the rebuild's repeated request does not apply |
| PointPlots.PointPlot.Start | src/pointplot.cpp:130-135 | the end of the constructor: the conditional bounds request, then one instance build; the domain's auto flag and titles stay; at most one `domain_updated` signal, since the rebuild's repeated request does not apply |
| LineSegmentPlots.TubeFacesInRange | src/linesegmentplot.cpp:21-26 | every 1-based face entry names one of the 12 vertices or one of the 7 normals |
| LineSegmentPlots.NormalsFromTable | src/linesegmentplot.cpp:36-51 | a vertex some face touches ends with a normal from the table; an untouched vertex keeps its initial value |
| LineSegmentPlots.TubeNormalsAssigned | src/linesegmentplot.cpp:33-51 | every tube vertex ends with a normal from the normal table |
| LineSegmentPlots.WriteCorners | src/linesegmentplot.cpp:37-50 | one face row: each corner's normal written at its rebased vertex, plus the rebased triangle |
| LineSegmentPlots.MeshLoop | src/linesegmentplot.cpp:36-51 | the normals after every row's writes, and one rebased triangle per face row |
| LineSegmentPlots.BuildCommonTube | src/linesegmentplot.cpp:28-51 | the normals list has one entry per vertex; one triangle per face row, each index below 12 |
| LineSegmentPlots.SegmentInstance | src/linesegmentplot.cpp:104-107 | transformed point with w 1, colour with w 0, column 2 `(0,0,0,1)`, column 3 `(sx, sy, 1, 1)` |
| LineSegmentPlots.LineSegmentPlot.RebuildInstances | src/linesegmentplot.cpp:79-119 | one instance per pair of points (integer division); instance i is built from point i with broadcast colour and scale |
| LineSegmentPlots.LineSegmentPlot.DomainUpdated | src/linesegmentplot.cpp:154-156 | just rebuilds the instances |
| LineSegmentPlots.LineSegmentPlot.PackPoints | src/linesegmentplot.cpp:131-135 | point i is (px[i], py[i], pz[i]) for every i < \|px\| |
| LineSegmentPlots.LineSegmentPlot.constructor | src/linesegmentplot.cpp:122-150 | packs the points, always asks for their bounds (zero vectors when there are none), then builds the instances; the domain's auto flag and titles stay; one `domain_updated` signal exactly when that unconditional request applies |
| Arguments.DecodeColor | src/plotty.cpp:36-60 | a string goes to the colour parser; an array gives, per channel k, entry k's double, or its integer unscaled, or 0 when the entry is missing or not a number; a bare integer v gives v/255, a double d gives d; anything else gives white |
| Arguments.DecodeColorRoundTrip | src/plotty.cpp:46-51 | a colour given as three doubles decodes to itself |
| Arguments.DecodeColorArrayEntries | src/plotty.cpp:46-54 | `[255, 0, 0]` decodes to (255, 0, 0) while a bare 255 decodes to (1, 1, 1); a one-entry array is padded with 0; non-number entries read as 0 |
| Arguments.ColorList | src/plotty.cpp:63-77 | a non-array value gives one colour; an array gives one colour per element, in order |
| Arguments.MakeScaleVectorAsWritten | src/plotty.cpp:94-115 | the loops as written, wherever their writes stay in bounds, compute the intended `ScaleVector` |
| Arguments.PackedInBoundsIsOneTriple | src/plotty.cpp:103-106 | the packed branch as written stays in bounds only for one point given as exactly three reals |
| Arguments.AsWrittenWritesOutside | src/plotty.cpp:103-111 | six reals for two points, and seven reals for one point, both break the in-bounds condition of the as-written loops |
| Arguments.ScaleVector | src/plotty.cpp:97-112 | empty for an empty source, else exactly num_points scales |
| Arguments.ScaleVectorRoundTrip | src/plotty.cpp:103-106 | a flattened list of points, shaped for that many points, gives back the points |
| Arguments.PackedShape | src/plotty.cpp:103-106 | reals laid out as the triples of a list of points, shaped for that many points, give the points back |
| Arguments.ScaleVectorUniform | src/plotty.cpp:108-111 | one real per point is broadcast to all three axes |
| Arguments.MakeScaleVector | src/plotty.cpp:94-115 | the corrected loops compute `ScaleVector` |
| Arguments.Scale2DAsWritten | src/plotty.cpp:122-135 | as written: \|reals\| / 2 scales |
| Arguments.Scale2DListAsWritten | src/plotty.cpp:122-135 | the loop as written computes `Scale2DAsWritten` |
| Arguments.Scale2DAsWrittenDropsPairs | src/plotty.cpp:128-132 | four reals give a second scale of (0, 0) instead of (3, 4) |
| Arguments.Scale2D | src/plotty.cpp:122-135 | \|reals\| / 2 scales, scale p being the pair at 2p |
| Arguments.Scale2DRoundTrip | src/plotty.cpp:128-132 | flattened pairs shaped again give back the same pairs |
| Arguments.Scale2DList | src/plotty.cpp:122-135 | the corrected loop computes `Scale2D` |
| Arguments.ValueAt | src/plotty.cpp:305-307 | `QList::value(i)`: the element, or 0 past the end |
| Arguments.ForceToVec3Properties | src/plotty.cpp:298-309 | a vector's own three reals give it back; extra reals are ignored; missing components are 0 |
| PlotRegistry.Plotty.constructor | src/plotty.h:84 | the counter starts at 1 and there are no plots |
| PlotRegistry.Plotty.Append | src/plotty.h:119-133 | a negative request gets the counter value (at least 1) and increments the counter; otherwise the request is the id and the counter is unchanged; an existing plot at the id is kept, yet the id is returned |
| PlotRegistry.Plotty.GetPlot | src/plotty.cpp:680-686 | nothing for an unknown id; otherwise the stored plot |
| PlotRegistry.AutoIdsIncrease | src/plotty.h:123-126 | two auto-assigned ids in a row are strictly increasing, hence distinct, and never 0 |

## Left out

- Noodles and Qt plumbing is not modelled:
  - the `Plotty` constructor, lights, `make_box`, `rebuild_axis`, and the remote-method wrappers other than the `set_domain` body;
  - `build_common_sphere`, `ImagePlot`, and `make_get_id_method`;
  - object, mesh and material creation and updates;
  - the `DataSource` constructor;
  - CLI startup.

  These are foreign calls and I/O.
- Qt signals are not delivered. TablePlot's `rebuild_instances(from, count)` and `rebuild_instances()` are logged as requests, not executed; PointPlot (src/pointplot.h:29) declares only `rebuild_instances()`, so the range form has no definition to model.
- `noo::from_cbor` and the column element types of the `SpecificTable` template (`Args...`) are not modelled. Every column holds the CBOR values it is given, unconverted; `LoadTableColumn(QCborValue)` and `LoadTableArg` are not modelled either.
- `noo::coerce_to_real_list` / `coerce_to_int_list` are not modelled: arguments arrive already as lists of reals or ints.
- QColor name parsing and the HSV `color_interpolation` are function parameters. Only the choice of map segment is modelled.
- Float and double rounding, widths, NaN and infinity are not modelled. Values are exact reals.
  - The ε test compares squared distances against ε², with ε = 2^-23.
  - `TablePlot`'s narrowing to float is not modelled.
- The spatial selection handlers and the probe are not modelled. Only their declarations are in src/pointplot.h:31-34 and 49-51.
- The `SimpleTable` row and block queries, its request handlers, and the `#if 0` block are not modelled.
- `SpecificTable.HandleDeletion` models the code as written. The corrected deletion of the two deletion findings (`KnownDeletedRows` and `KeyMapOf`) is stated on values beside it, not wired into the class, so that the class stays faithful to the source.
- `handle_deletion` requires every resolved row to exist. An erase past the end is undefined behaviour in the source.
- `handle_update` requires every found key to map to an existing row. An out-of-range write is undefined behaviour in the source.
- `for_columns` requires every span to be non-empty when there are rows to iterate. Otherwise the source takes a modulus by zero.
- `TablePlot` rebuilds require that a colour or size column that is read is non-empty, for the same reason.
- `TablePlot.RebuildCache` does not model the zero-column branch. `are_sources_valid` already rejects a table without columns, so that branch cannot run.
- `Lerp`, `Transform` and the plot constructors require a non-degenerate input box. In the source a degenerate box divides by zero into NaN, which reals cannot represent.
- `SpecificTable.Valid` does not include the key→row map. Deletion leaves the map stale, so no invariant about it holds across operations.
- `Arguments.MakeScaleVectorAsWritten`: states its result only under the precondition that keeps its writes in bounds; there it equals `ScaleVector`. Out-of-bounds writes are undefined behaviour in the source. `AsWrittenWritesOutside` exhibits inputs that cause them, rather than modelling them.
- `DataSources.GetDoublesAt`: takes the doubles of a string column to be empty. `TableColumn::as_doubles` is not part of this model. No modelled plot depends on this. PointPlot's columns are reals whenever there are points. Without points every load column is empty, so the table stores string columns, but every span read from them is then empty too. TablePlot tests for a string column first.
- `min_max_of(px, py, pz)`, called at src/pointplot.cpp:39 and 131, is declared and defined nowhere in the repository. src/utility.h:13 declares only the span-of-vec3 overload. The model takes the three-span form to be that overload applied to the points (px[i], py[i], pz[i]) (`MinMax(Zip3(px, py, pz))` in `PointPlots`).
- TablePlot's base `PointPlot(host, id, {}, {}, {})` (src/tableplot.cpp:262) is not modelled: `TablePlot` is a class of its own, not a PointPlot subclass. The caches `m_points`, `m_colors` and `m_scales` that src/tableplot.cpp uses are declared in neither src/tableplot.h nor src/pointplot.h. The model makes them fields of `TablePlot`.

## Findings

| source | as written | input that shows it | evidently intended | confidence | as-written member | corrected member |
|---|---|---|---|---|---|---|
| src/plotty.cpp:103-106 | the packed branch of `make_scale_vector` stores the triple at source index i in `ret[i]` | six reals for two points: the second triple is written to `ret[3]` of a two-element vector | store the triple at `ret[i / 3]` | not executed | Arguments.AsWrittenWritesOutside | Arguments.ScaleVectorRoundTrip |
| src/plotty.cpp:108-111 | the other branch writes `ret[i]` for every source real, whatever the number of points | seven reals for one point write `ret[1]` to `ret[6]` of a one-element vector | write only the points there are | not executed | Arguments.MakeScaleVectorAsWritten | Arguments.MakeScaleVector |
| src/plotty.cpp:128-132 | `Scale2DListArgument` steps i by 2 over the scales and stores the pair at `reals[i]` in `scales[i]` | `[1, 2, 3, 4]` gives the scales (1, 2) and (0, 0) | scale p is the pair at `reals[2p]` | not executed | Arguments.Scale2DAsWrittenDropsPairs | Arguments.Scale2DRoundTrip |
| src/simpletable.h:284-314 | `handle_deletion` erases rows but never rebuilds the key→row map, so the rows after an erased one keep stale entries | keys 0, 1, 2 in rows 0, 1, 2; delete key 0, then update key 1: the update writes row 1, which now holds key 2 | map each surviving key to its new row | not executed | SpecificTables.StaleMapAfterDeletion | SpecificTables.RebuiltMapFindsOwnRow |
| src/simpletable.h:293-295 | an unknown key is looked up with `m_key_to_row_map[key]`, which yields (and inserts) row 0 | delete key 5 from a table whose keys are 0 and 1: row 0 (key 0) is erased | skip keys the map does not know | not executed | SpecificTables.UnknownKeyErasesRowZero | SpecificTables.KnownDeletedRowsExact |
