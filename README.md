# Welch's t-test front end, modelled in Dafny

The library takes a table, the names of a grouping column and a measurement
column, and a pair of group labels `[control_value, test_value]`. It checks the
inputs, extracts the two groups, and runs Welch's two-sided t-test on them. It
comes in two versions:

- **The raising version** (`custom_welch_t_test`). `validate_inputs` and
  `extract_groups` raise `InvalidDataError` or `InvalidColumnError`.
  `welch_t_test` re-raises those two unchanged and wraps every other exception
  in a `WelchTTestError`.
- **The error-map version** (`welch_t_test.py`). It runs a shorter chain of the
  same guards and returns `{"error": message}` instead of raising.

The model is pure: each Python function becomes a Dafny function returning a
`Result`, and a raised exception becomes a `Fail`. The modules are:

- `Frames`: the part of a DataFrame the code reads.
- `Exceptions`: the exception hierarchy.
- `Checks`: ordered guard tables, "first violated guard wins". It is the
  reference that `validate_inputs`, `extract_groups` and the error-map
  `welch_t_test` are proved against.
- `Numerics`: the statistics.
- `Utils`, `Core`, `ErrorMap`: the three entry files.
- `Decimal`: the rendering of a count in a message.
- `Scenarios`: lemmas about concrete tables, stated for both versions.

The table model rests on these assumptions about pandas:

- A column is a sequence of cells. A cell is a number, a text, or missing (`NaN`/`None`).
- `column == value` selects a cell only when it is present and equal to `value`, so a missing label selects no row.
- Boolean-mask selection keeps table order.
- `dropna()` removes the missing cells and keeps the order of the rest.
- `nunique()` counts distinct non-missing cells.
- `.empty` means zero rows or zero columns.

The foreign code is passed in as function values inside `Core.Env`:

- scipy's `ttest_ind`;
- numpy's `mean` and `std(ddof=1)`;
- the text of numpy's `TypeError`, as a function of the two groups it was given;
- Python's `str()` of a group label.

These values are never interpreted. `np.std(ddof=1)` of fewer than two
observations is NaN. The Welch–Satterthwaite degrees of freedom are written out
over the reals; a 0/0 gives NaN, as numpy's float division does.

Two exception classes are declared but never raised:

- `StatisticalError` (custom_welch_t_test/exceptions.py:45-55) is documented for
  division by zero in variance calculations, but no code path raises it. With
  two constant groups nothing raises: the code's own df is 0/0, which numpy
  makes NaN (`Core.DfUndefinedIff`), and t and p are whatever `ttest_ind`
  returns.
  Had a `StatisticalError` reached `welch_t_test`, it would be wrapped
  (`Core.StatisticalIsWrapped`).
- `InsufficientDataError` (custom_welch_t_test/exceptions.py:33) is never raised
  either. Every extraction error is an `InvalidDataError`
  (custom_welch_t_test/utils.py:78-99), including the no-rows, all-missing and
  too-small errors. `Core.WelchTTest` promises that neither class escapes.

## Model

| member | source | states |
|---|---|---|
| Exceptions.Parent | custom_welch_t_test/exceptions.py:5-45 | defines each class's base: InvalidDataError, InvalidColumnError and StatisticalError derive from WelchTTestError, InsufficientDataError from InvalidDataError, and WelchTTestError has no base in the library |
| Exceptions.IsA | custom_welch_t_test/core.py:74 | defines `issubclass`, the matching an `except` clause does: a class is itself or derives from the given class through its bases |
| Exceptions.DefaultMessage | custom_welch_t_test/exceptions.py:9-54 | defines each class's default message, the constructor's keyword default, character for character |
| Exceptions.Construct | custom_welch_t_test/exceptions.py:9-11 | the exception has the requested class; its stored message is the argument when one is given, and the class's default otherwise |
| Exceptions.EveryKindIsWelchTTestError | custom_welch_t_test/exceptions.py:5-45 | every one of the five classes is a subclass of WelchTTestError |
| Exceptions.InvalidDataSubclasses | custom_welch_t_test/exceptions.py:13-33 | exactly InvalidDataError and InsufficientDataError are InvalidDataErrors; InvalidColumnError and StatisticalError are not |
| Exceptions.InvalidColumnSubclasses | custom_welch_t_test/exceptions.py:26-31 | InvalidColumnError is the only InvalidColumnError |
| Exceptions.DefaultMessagesDiffer | custom_welch_t_test/exceptions.py:9-54 | the five default messages are pairwise different |
| Checks.FirstFailureFrom | custom_welch_t_test/utils.py:24-52 | no failure iff every guard from the index on holds; otherwise the failure of a violated guard all of whose predecessors hold |
| Checks.FirstFailureAt | custom_welch_t_test/utils.py:24-52 | the earliest violated guard decides the outcome, whatever later guards do |
| Frames.Matches | custom_welch_t_test/utils.py:73-74 | defines the cell-wise `==` of the mask: a missing cell matches nothing, and any other cell matches an equal value |
| Frames.IsEmpty | custom_welch_t_test/utils.py:27 | defines `DataFrame.empty`: no rows, or no columns |
| Frames.Select | custom_welch_t_test/utils.py:73-74 | a selection is never longer than the column |
| Frames.SelectMembers | custom_welch_t_test/utils.py:73-74 | a cell is selected iff it is the measurement of some row whose label matches |
| Frames.SelectAppend | custom_welch_t_test/utils.py:73-74 | selection keeps table order: it distributes over splitting the table into blocks |
| Frames.DropMissing | custom_welch_t_test/utils.py:84-85 | `dropna` is never longer than its input and leaves no missing cell |
| Frames.DropMissingMembers | custom_welch_t_test/utils.py:84-85 | `dropna` keeps exactly the cells that are not missing |
| Frames.DropMissingAppend | custom_welch_t_test/utils.py:84-85 | `dropna` keeps order: it distributes over concatenation |
| Frames.DropMissingKeepsPresent | custom_welch_t_test/utils.py:84-85 | `dropna` changes nothing without missing cells, and so is idempotent |
| Frames.DistinctValues | custom_welch_t_test/utils.py:38 | the counted values never include a missing cell |
| Frames.DistinctValuesMembers | custom_welch_t_test/utils.py:38 | `nunique` counts exactly the distinct non-missing cells |
| Frames.Nunique | custom_welch_t_test/utils.py:38 | defines `nunique()` as the number of distinct non-missing cells |
| Decimal.NatToString | custom_welch_t_test/utils.py:41 | the rendered count is a non-empty run of digits with no leading zero, except for 0 itself |
| Decimal.NatToStringRoundTrip | custom_welch_t_test/utils.py:41 | the digits of the rendered count denote the count again |
| Decimal.LeadingDigitsOfDigits | custom_welch_t_test/utils.py:41-42 | a run of digits followed by a non-digit is read back exactly |
| Utils.ColumnNotFound | custom_welch_t_test/utils.py:31-35 | defines the missing-column message, which names the column |
| Utils.TooManyValues | custom_welch_t_test/utils.py:40-43 | defines the distinct-value message: the prefix, the count in decimal and the fixed sentence |
| Utils.NoControlRows | custom_welch_t_test/utils.py:77-78 | defines the no-rows message for the control label, which carries `str()` of that label |
| Utils.NoTestRows | custom_welch_t_test/utils.py:80-81 | defines the no-rows message for the test label, which carries `str()` of that label |
| Utils.ValidateInputs | custom_welch_t_test/utils.py:24-52 | success iff the input is a non-empty DataFrame with both columns, at most 2 distinct labels, and a list, tuple or array pair of length 2; failures are InvalidData or InvalidColumn, InvalidColumn exactly for a missing column; a non-DataFrame fails first; a missing grouping column is reported before the measurement column; more than 2 labels give the count error whatever the pair |
| Utils.ValidationOrder | custom_welch_t_test/utils.py:24-52 | `validate_inputs` equals the run of its seven guards in source order |
| Utils.TooManyValuesCarriesCount | custom_welch_t_test/utils.py:40-43 | the distinct-value message starts with its fixed prefix, and the digits after it denote the count |
| Utils.Rows | custom_welch_t_test/utils.py:73-74 | the rows of a label are never more than the table's rows |
| Utils.Group | custom_welch_t_test/utils.py:84-85 | a group is no longer than its rows and has no missing cell |
| Utils.ExtractGroups | custom_welch_t_test/utils.py:70-101 | success iff both groups keep at least 2 observations; it then returns the two groups and the pair unchanged and in order; every failure is an InvalidDataError; a test label without rows is reported even when control is too small; equal labels give identical vectors |
| Utils.ExtractionOrder | custom_welch_t_test/utils.py:77-99 | `extract_groups` reports the first violated guard of its six, in source order, and succeeds when none is violated |
| Utils.GroupMembers | custom_welch_t_test/utils.py:73-85 | a group holds exactly the non-missing measurements of the rows whose label equals the requested value |
| Utils.GroupSplit | custom_welch_t_test/utils.py:73-85 | groups keep table order: the group of a table is the group of its first rows followed by the group of the rest |
| Utils.AbsentValueHasNoRows | custom_welch_t_test/utils.py:73-78 | a label absent from the grouping column, or a missing label, selects no row |
| Utils.PipelineSuccess | custom_welch_t_test/utils.py:38-101 | after both steps succeed, the grouping column has at most 2 distinct labels and both labels of the pair are among them; each group has between 2 and the table height observations, none of them missing |
| Numerics.Minus | custom_welch_t_test/core.py:67 | the difference is defined iff both means are, and then control mean plus difference is the test mean |
| Numerics.SampleStd | custom_welch_t_test/core.py:45-46 | `std(ddof=1)` is NaN for fewer than two observations and numpy's value otherwise |
| Numerics.SquaredError | custom_welch_t_test/core.py:51-53 | s²/n is non-negative, and zero exactly when s is |
| Numerics.WelchRatio | custom_welch_t_test/core.py:53-55 | defines (a + b)² / (a²/k1 + b²/k2) over the reals, NaN when the denominator is zero, as numpy's 0/0 gives |
| Numerics.WelchDf | custom_welch_t_test/core.py:51-55 | defines the Welch–Satterthwaite expression over the reals; requiring n1, n2 ≥ 2 makes its n − 1 divisors positive |
| Numerics.DegreesOfFreedom | custom_welch_t_test/core.py:51-55 | defines df from the two standard deviations: the Welch expression when both are defined, NaN when either is NaN |
| Numerics.WelchDfUndefinedIff | custom_welch_t_test/core.py:51-55 | with n1, n2 ≥ 2 the n−1 divisors are positive, and df is undefined exactly when both standard deviations are zero |
| Numerics.RatioBounds | custom_welch_t_test/core.py:53-55 | the Welch ratio, when defined, lies between the smaller and the sum of its two divisors |
| Numerics.WelchDfBounds | custom_welch_t_test/core.py:53-55 | a defined df lies between min(n1, n2) − 1 and n1 + n2 − 2 |
| Core.AsDict | custom_welch_t_test/core.py:57-70 | the success dictionary has exactly the twelve listed keys |
| Core.ResultKeysCount | custom_welch_t_test/core.py:57-70 | the twelve keys are distinct, and none is `"error"` |
| Core.ResultHasTwelveKeys | custom_welch_t_test/core.py:57-72 | every success dictionary has twelve keys and no `"error"` key |
| Core.Compute | custom_welch_t_test/core.py:40-70 | fails iff a non-numeric observation is present, with the text of numpy's TypeError on the two groups; otherwise it stores t and p from the t-test, the means and standard deviations of the two vectors, the counts as the vectors' lengths, and the labels in order; the mean difference is test minus control; with defined standard deviations df is the Welch formula (both counts ≥ 2 there), and NaN otherwise |
| Core.Text | custom_welch_t_test/core.py:77 | defines `str(e)`: a library exception gives its stored message, a foreign one its own text |
| Core.Boundary | custom_welch_t_test/core.py:74-77 | InvalidColumn and InvalidData errors, subclasses included, pass through unchanged; anything else becomes a WelchTTestError with message "T-test calculation failed: " followed by `str` of the original |
| Core.InsufficientPassesThrough | custom_welch_t_test/core.py:74-75 | an InsufficientDataError is re-raised unchanged |
| Core.StatisticalIsWrapped | custom_welch_t_test/core.py:74-77 | a StatisticalError is wrapped, its message kept after the prefix |
| Core.BoundaryKinds | custom_welch_t_test/core.py:74-77 | what leaves the boundary is a WelchTTestError and never a StatisticalError |
| Core.WelchTTest | custom_welch_t_test/core.py:30-77 | validation runs first and its error is raised unchanged; then extraction's error is raised unchanged; then a computation failure is wrapped; otherwise the computed result is returned; no StatisticalError or InsufficientDataError ever escapes |
| Core.SuccessIff | custom_welch_t_test/core.py:30-72 | a result is returned iff validation passes and both groups have ≥ 2 observations, all numeric; its counts are the group sizes (≥ 2) and its labels are the pair in order |
| Core.ComputationFailureIsWrapped | custom_welch_t_test/core.py:76-77 | a raised WelchTTestError comes from inputs that passed validation, and carries "T-test calculation failed: " followed by the text of numpy's TypeError on the two groups |
| Core.DfBounds | custom_welch_t_test/core.py:53-55 | a defined df in a result lies between min(n_control, n_test) − 1 and n_control + n_test − 2 |
| Core.DfUndefinedIff | custom_welch_t_test/core.py:51-55 | with defined standard deviations, df in a result is NaN exactly when both are zero |
| ErrorMap.NoColumnsAttribute | welch_t_test.py:21 | defines the text of the AttributeError raised when the object given as the DataFrame has no `columns` |
| ErrorMap.NoLength | welch_t_test.py:32 | defines the text of the TypeError raised by `len()` on a pair object without a length |
| ErrorMap.Outcome | welch_t_test.py:19-90 | success iff the input is a DataFrame with both columns, at most 2 distinct labels and a pair with a length of 2, and both groups keep ≥ 1 observation, all numeric; the result is the same computation as the raising version's on those groups; a non-DataFrame fails with "An error occurred: " and the AttributeError text; a missing grouping column and more than 2 labels are reported as in the raising version; a pair without `len()` fails with "An error occurred: " and the TypeError text |
| ErrorMap.OutcomeOrder | welch_t_test.py:19-90 | this version reports the first violated guard of its ten, in source order, with each guard's message (the non-DataFrame and no-`len()` ones under the catch-all prefix), on every frame and pair; with no guard violated it returns the computation, whose failure carries the catch-all prefix |
| ErrorMap.OutcomeOrderFrame | welch_t_test.py:19-33 | when the frame, column, label-count or pair guards do not all hold, the first violated one among them decides the message |
| ErrorMap.OutcomeOrderGroups | welch_t_test.py:35-90 | once those guards hold: no control rows, then no test rows, then no valid control data, then no valid test data, else the computation |
| ErrorMap.ErrorOrResult | welch_t_test.py:72-90 | a failure becomes the single-key `{"error": message}` map, a success the twelve-key dictionary |
| ErrorMap.WelchTTestMap | welch_t_test.py:5-90 | the returned map has either the single key `"error"` or exactly the twelve result keys, and `"error"` is present iff the run failed |
| ErrorMap.AgreesOnSuccess | welch_t_test.py:57-87 | whenever the raising version returns a result, this version returns the same result and dictionary |
| ErrorMap.SingleObservationAccepted | welch_t_test.py:51-65 | a control group of one valid observation is computed here, with n_control 1 and NaN std and df, while the raising version refuses it with the minimum-size error |
| ErrorMap.SharedMessages | welch_t_test.py:21-54 | on a non-empty DataFrame with a list, tuple or array pair, every data error of the raising version except the two minimum-size ones is returned here with the same message |
| ErrorMap.ComputationFailureMessage | welch_t_test.py:89-90 | when the raising version wraps a computation failure, the inputs were acceptable and this version reports "An error occurred: " followed by the text of the TypeError on the two groups |
| Scenarios.ThreeLabelsRefused | custom_welch_t_test/utils.py:38-43 | a grouping column with labels a, b, c is refused with the count-3 message, whatever the pair |
| Scenarios.MissingColumnNamed | custom_welch_t_test/utils.py:31-32 | a missing grouping column is refused with an InvalidColumnError naming it |
| Scenarios.AbsentLabelsReported | custom_welch_t_test/utils.py:77-78 | labels x, y absent from a table of a and b: both versions report "No data found" for the control label x |
| Scenarios.SingleControlObservation | custom_welch_t_test/utils.py:95-96 | a control group left with one observation after `dropna` is refused by the raising version and computed by the error-map version, with counts 1 and 2 |

## Left out

- scipy's `ttest_ind`, numpy's `mean` and `std` are uninterpreted function values. Nothing is claimed about t, p, the means or the standard deviations beyond where they come from. This rules out properties such as p lying in [0, 1], or t changing sign when the groups are swapped.
- Floating point: rounding, overflow and infinities are not modelled. Df is computed over the reals, with NaN only for 0/0, so its float bounds are not claimed. A NaN cell in the table is a missing cell.
- Numerics.SampleStd: numpy's NaN for a single observation is stated; its RuntimeWarning is not.
- Core.Compute: any non-numeric observation is taken to make numpy raise a `TypeError`. Its text is a parameter (`Core.Env.typeError`) applied to the two groups, so it may depend on their contents. Other exceptions numpy or scipy might raise are not modelled.
- Core.Boundary: the `from e` chaining of the original exception onto the wrapper is not modelled.
- Core.Env.show: Python's `str()` of a group label is a parameter, not a formatting function. It cannot tell an int label from an equal float (`1` and `1.0` are both `Number(1.0)`), so where Python's messages would show `1` and `1.0`, the model gives both labels the same text. Likewise `None` and `NaN` labels are both `Missing`, so the model gives Python's `'None'` and `'nan'` one text.
- `format_results` (custom_welch_t_test/utils.py:103-134): display formatting with float format specifiers.
- The `__main__` example of welch_t_test.py:93-114: I/O.
- custom_welch_t_test/__init__.py is not part of this model: it only re-exports names and version metadata.
- Utils.ExtractGroups: it requires both columns present and a two-element pair, which `validate_inputs` establishes before every call. A direct call without them raises pandas' KeyError or Python's unpacking error, which is not modelled.
- Duplicate column names and multi-dimensional arrays as the pair are not modelled: columns form a map, and the pair's elements form a sequence.
- ErrorMap.Outcome: a non-DataFrame object is taken to have no `columns` attribute. A duck-typed object that has one is not modelled.
- That `validate_inputs` returns nothing and changes nothing on success, and that repeated calls agree, holds by construction: the model is pure.
