# Engineering calculator core, modelled in Dafny

This project models the computational core of a console engineering calculator
written in C (`funcs.c`, `funcs.h`). The calculator has three independent parts,
and each is a set of Dafny modules here.

- **Linear-algebra library** (`Matrices`, `MatrixOps`, `MatrixAlgebra`, `DeterminantLemmas`, `DeterminantSwap`, `Sums`).
  - A `Matrix` is a value: 10 x 10 storage plus `rows` and `cols`. Only the entries inside the extents are meaningful.
  - Operations: the square check, submatrix extraction, the recursive determinant (Laplace expansion along row 0), and the add and multiply loops behind their dimension checks.
  - Each loop-based method is proved equal to a specification function. Algebraic facts are proved about those functions: commutativity and a zero for addition, identities and associativity for the product, and for the determinant det(I) = 1, the triangular-product rule and the sign change when two rows are exchanged.
- **Resistor network** (`Resistors`, `ResistorLemmas`, `Diagram`, `DiagramLemmas`).
  - The series, parallel and mixed equivalent-resistance loops, with the mixed circuit cut into consecutive groups.
  - The circuit-diagram buffer: a class whose array of line slots and line counter are overwritten by the series, parallel and mixed diagram builders.
  - Lines are UTF-8 byte strings, so the 100-byte slot limit can be stated exactly.
- **Unit converter** (`Units`, `UnitsLemmas`).
  - The constant unit table.
  - The case-insensitive lookup, which copies the name into a 20-byte buffer, lower-cases it in place and scans the table.
  - The conversion through the base unit, where an unknown unit or a kind mismatch gives no result (NaN in C, `None` here).

Modelling conventions:
- C `double` and `float` are Dafny `real`.
- `pow(-1, col)` is an exact parity sign.
- Console input validation becomes preconditions, sometimes weaker than what the dialogue ensures:
  - matrix extents of at most 10, and of at least 1 for the determinant (`Matrix.Valid()` itself admits 0);
  - positive resistances;
  - non-empty groups that do not run past the entered resistors (`WellConfigured`). The dialogue also makes the groups use up every entered resistor; no fact here depends on that.

Where the drawing code and the resistance code disagree, the model follows the code.
- The resistance calculation treats connection type 1 as series and any other code as parallel.
- The mixed diagram builder treats type 2 as parallel and any other code as series.
- The configuration dialogue only ever produces 1 or 2, so the two readings agree on every input it accepts.

## Model

| member | source | states |
|---|---|---|
| Matrices.ZeroStorage | funcs.h:42-46 | zero-filled 10 x 10 storage, the model's value for the entries C leaves indeterminate |
| Matrices.Store | funcs.c:951 | writing one storage entry changes that entry and no other |
| Matrices.IsSquareMatrix | funcs.c:878-880 | a matrix is square exactly when its row and column counts are equal; the determinant and `MatrixDeterminant` require or test this |
| Matrices.Submatrix | funcs.c:883-903 | deleting one row and one column of a valid matrix leaves a valid matrix one smaller in each extent |
| Matrices.SubmatrixKeepsOtherEntries | funcs.c:888-900 | every source entry outside the deleted row and column appears in the submatrix, at the index shifted down past the deleted one |
| Matrices.SubmatrixEntry | funcs.c:888-900 | submatrix entry (i, j) is source entry (i + [i >= row], j + [j >= col]) |
| Matrices.SubmatrixSameAs | funcs.c:883-903 | the submatrix depends only on the meaningful entries of its source |
| Matrices.DetSameAs | funcs.c:906-927 | the determinant reads only the meaningful entries |
| Matrices.ExpansionSameAs | funcs.c:918-924 | every partial cofactor expansion reads only the meaningful entries |
| Matrices.CofactorSameAs | funcs.c:920-923 | each cofactor term reads only the meaningful entries |
| MatrixOps.CreateSubmatrix | funcs.c:883-903 | extents rows-1 x cols-1, entry (i, j) copied from (i + [i >= excluded row], j + [j >= excluded col]), equal to the specification Submatrix |
| MatrixOps.CalculateDeterminant | funcs.c:906-927 | the loop with recursive calls computes Det: the entry for 1 x 1, ad - bc for 2 x 2, and otherwise the signed cofactor sum along row 0 |
| MatrixOps.MatrixDeterminant | funcs.c:1007-1026 | refuses exactly the non-square matrices, reporting their extents; otherwise returns Det |
| MatrixOps.MatrixAddition | funcs.c:930-964 | refuses exactly when rows or cols differ, reporting both shapes; otherwise the entrywise sum with A's shape |
| MatrixOps.MatrixMultiplication | funcs.c:967-1004 | refuses exactly when A.cols != B.rows, reporting both; otherwise A.rows x B.cols with entry (i, j) the ascending sum of A[i][k] * B[k][j] |
| MatrixAlgebra.AddCommutes | funcs.c:946-953 | addition of equally shaped matrices is commutative |
| MatrixAlgebra.AddZero | funcs.c:946-953 | adding the zero matrix of the same shape gives back the matrix |
| MatrixAlgebra.MulIdentityRight | funcs.c:986-993 | A * I = A |
| MatrixAlgebra.MulIdentityLeft | funcs.c:986-993 | I * A = A |
| MatrixAlgebra.MulValid | funcs.c:983-984 | the product of valid matrices is valid, with extents A.rows x B.cols |
| MatrixAlgebra.MulEntry | funcs.c:986-993 | every stored product entry is its row-by-column sum |
| MatrixAlgebra.ProdAssociative | funcs.c:986-993 | the row-by-column sum of products is associative for any entries, the step MulAssociativeEntry builds on |
| MatrixAlgebra.MulAssociativeEntry | funcs.c:986-993 | each meaningful entry of (a b) c equals that of a (b c) |
| MatrixAlgebra.MulAssociative | funcs.c:967-1004 | matrix multiplication is associative on compatible shapes |
| MatrixAlgebra.MulSameAs | funcs.c:986-993 | the product reads only the meaningful entries of its factors, so factors that agree there give products that agree there |
| MatrixAlgebra.NestedProductsAssociate | funcs.c:967-1004 | results of the multiplication operation used as operands again are associative: any matrices agreeing with (a b) c and with a (b c) on the meaningful entries, as `MatrixMultiplication` returns, agree with each other |
| DeterminantLemmas.ClosedFormAgreesWithExpansion | funcs.c:911-924 | for 2 x 2 the closed form ad - bc equals the cofactor expansion along row 0 |
| DeterminantLemmas.DetIsExpansion | funcs.c:917-926 | for every size >= 2 the determinant is the cofactor expansion along row 0 |
| DeterminantLemmas.ExpansionOfFirstTerm | funcs.c:918-924 | when row 0 is zero past column 0, the expansion is m[0][0] times the minor of (0, 0) |
| DeterminantLemmas.DiagonalProductOfMinor | funcs.c:883-903 | deleting row 0 and column 0 drops exactly the first diagonal entry from the diagonal product |
| DeterminantLemmas.DetLowerTriangular | funcs.c:906-927 | the determinant of a lower-triangular matrix is the product of its diagonal |
| DeterminantLemmas.DetIdentity | funcs.c:906-927 | the identity of every size 1..10 has determinant 1 |
| DeterminantSwap.SwapRowsEntry | funcs.c:906-927 | row p of the exchanged matrix is row i, j or p of the original, as p is j, i or neither |
| DeterminantSwap.SwapRowsTwice | funcs.c:906-927 | exchanging the same two rows twice gives back the matrix |
| DeterminantSwap.MinorOfSwapBelow | funcs.c:883-903 | deleting row 0 and a column commutes with exchanging two rows below row 0, the rows moving up by one |
| DeterminantSwap.CofactorSwapBelow | funcs.c:920-923 | exchanging two rows below row 0 negates every cofactor term of the row-0 expansion |
| DeterminantSwap.ExpansionSwapBelow | funcs.c:918-924 | exchanging two rows below row 0 negates every partial row-0 expansion |
| DeterminantSwap.MinorDetSwapBelow | funcs.c:883-927 | exchanging two rows below row 0 negates the minor of every column of row 0 |
| DeterminantSwap.CofactorAsSignedTerm | funcs.c:920-923 | each row-0 cofactor is the entry, signed by the parity of its column, times the minor of its column |
| DeterminantSwap.ExpansionAsSignedTerms | funcs.c:918-924 | every partial row-0 expansion is the sum of those signed terms over the first k columns |
| DeterminantSwap.MinorSignedTerm | funcs.c:883-903 | term d of the minor of column a, expanded along its first row, is row-1 entry Keep(d, a) of the matrix times the minor left by columns a and Keep(d, a), with the sign of d |
| DeterminantSwap.MinorDet | funcs.c:906-927 | the minor of column a is the sum over the other columns b of those row-1 terms |
| DeterminantSwap.DetTwiceExpanded | funcs.c:906-927 | the determinant of a matrix of size 3 or more is a double sum over pairs of distinct columns for rows 0 and 1 |
| DeterminantSwap.PairMinorEntry | funcs.c:883-903 | after exchanging rows 0 and 1, deleting columns b then a leaves the same entries as deleting a then b before |
| DeterminantSwap.PairMinorsExchanged | funcs.c:883-903 | after exchanging rows 0 and 1, the minor left by columns (b, a) is the one left by (a, b) in the original |
| DeterminantSwap.TwiceExpandedExchanged | funcs.c:906-927 | exchanging rows 0 and 1 negates the double sum, term by term with the pair (a, b) mapped to (b, a) |
| DeterminantSwap.DetSwapFirstTwo | funcs.c:906-927 | exchanging rows 0 and 1 of a matrix of size 3 or more negates the determinant |
| DeterminantSwap.DetSwapRows | funcs.c:906-927 | exchanging any two different rows of a square matrix negates its determinant |
| Resistors.IsPositive | funcs.c:524-532 | returns 1 exactly for a positive value and 0 otherwise |
| Resistors.Reciprocals | funcs.c:548-550 | the reciprocal of every resistance, in order |
| Resistors.SeqSumPositive | funcs.c:544-552 | a non-empty sum of positive terms is positive |
| Resistors.ReciprocalSumPositive | funcs.c:544-552 | the reciprocal sum of positive resistances is positive, so 1 / sum is defined |
| Resistors.CalcSeries | funcs.c:534-542 | returns the sum of the first resistor_count resistances |
| Resistors.CalcParallel | funcs.c:544-552 | returns 1 over the sum of the reciprocals of the first resistor_count positive resistances |
| Resistors.GroupStartMonotone | funcs.c:250-266 | with non-empty groups the start index of a group strictly increases with the group number |
| Resistors.WellConfiguredPrefix | funcs.c:170-217 | every prefix of a valid group configuration is valid |
| Resistors.GroupSlice | funcs.c:250-266 | group g takes exactly sizes[g] resistors, all positive |
| Resistors.GroupResistances | funcs.c:250-266 | one resistance per configured group |
| Resistors.AccumulateSeries | funcs.c:252-257 | a series group's inner loop adds the next size resistors and moves resistor_index past them |
| Resistors.AccumulateParallel | funcs.c:258-265 | a parallel group's inner loop gives 1 / sum(1/r) over the next size resistors and moves resistor_index past them |
| Resistors.CalcMixedResistance | funcs.c:245-274 | the total is the sum, over groups in order, of each group's series or parallel resistance |
| ResistorLemmas.SeqSumIsSum | funcs.c:534-542 | the left-to-right sum of a sequence, as the series loop accumulates it, is the index-family sum the matrix product accumulates, so both loops use one notion of sum |
| ResistorLemmas.SeqSumConcat | funcs.c:268-272 | a sum over a concatenation is the sum of the two sums |
| ResistorLemmas.SeqSumAtLeastEach | funcs.c:534-542 | each term of a positive sum is at most the sum |
| ResistorLemmas.SeriesAtLeastEach | funcs.c:534-542 | a series total is at least each of its resistors |
| ResistorLemmas.ParallelAtMostEach | funcs.c:544-552 | a parallel total is positive and at most each of its resistors |
| ResistorLemmas.ParallelOfEqual | funcs.c:544-552 | n equal resistors r in parallel give r / n |
| ResistorLemmas.GroupsConsumePrefix | funcs.c:245-266 | the groups take consecutive slices: together they consume exactly the first sum(group_sizes) resistors, each once and in order |
| ResistorLemmas.MixedTotalStep | funcs.c:268-272 | the groups are in series: each further group adds its resistance to the total |
| ResistorLemmas.AllSeriesIsSeries | funcs.c:245-274 | when every group is series, the mixed total equals calc_series over the consumed resistors |
| ResistorLemmas.AllSeriesSumsConsumed | funcs.c:245-274 | with all groups series, the total is the sum of the consumed resistors |
| ResistorLemmas.SingleParallelGroup | funcs.c:245-274 | a single parallel group gives calc_parallel of its resistors |
| Diagram.Repeat | funcs.c:597-601 | n copies of a piece have n times its length |
| Diagram.Spaces | funcs.c:311-314 | n spaces are n bytes |
| Diagram.FirstParallel | funcs.c:287-295 | the index of the first group of type 2, or -1 exactly when there is none |
| Diagram.AppendSeriesRun | funcs.c:336-343 | the nested strcat loops append WIRE RESISTOR once per resistor of the given groups |
| Diagram.SpaceString | funcs.c:309-314 | the space_str loop builds 8 * series_before spaces |
| Diagram.LocateParallelGroup | funcs.c:284-295 | finds the first parallel group and the number of resistors before it |
| Diagram.BuildMixedMiddle | funcs.c:335-361 | the main line: series runs before and after the block, the block, and a closing wire |
| Diagram.CircuitDiagram.constructor | funcs.c:16-17 | an empty buffer of 10 blank line slots with count 0 |
| Diagram.CircuitDiagram.AppendLine | funcs.c:602 | stores a line in the next slot and increments the count, leaving the rest of the buffer unchanged |
| Diagram.CircuitDiagram.AppendPair | funcs.c:320-333 | two consecutive line stores |
| Diagram.CircuitDiagram.SaveBlock5 | funcs.c:610-627 | a new drawing of branch, vertical, middle, vertical, branch |
| Diagram.CircuitDiagram.SaveBlock9 | funcs.c:628-653 | a new drawing of the nine lines of a four- or five-branch block |
| Diagram.CircuitDiagram.SaveSeriesDiagram | funcs.c:591-603 | resets the count and leaves exactly one line: WIRE then RESISTOR WIRE per resistor |
| Diagram.CircuitDiagram.SaveParallelDiagram | funcs.c:605-655 | resets the count and leaves the 5- or 9-line drawing for 2..5 branches and an empty drawing otherwise |
| Diagram.CircuitDiagram.SaveMixedDiagram | funcs.c:281-522 | resets the count and leaves the series drawing of all resistors when no group is parallel, otherwise the first parallel group as an indented block on the main line |
| DiagramLemmas.SeriesDiagramFits | funcs.c:591-603 | the series drawing has one line, and it fits a 100-byte slot exactly for at most 7 resistors |
| DiagramLemmas.ParallelDiagramShape | funcs.c:605-655 | 5 lines for 2 or 3 branches, 9 for 4 or 5, none otherwise, and every line fits |
| DiagramLemmas.ParallelDiagramDrawsEachResistor | funcs.c:605-655 | the drawing of n = 2..5 branches contains the zigzag `/\/\/\` exactly n times, counted at every byte position of every line |
| DiagramLemmas.SeriesDiagramDrawsEachResistor | funcs.c:591-603 | the series drawing of n resistors contains the zigzag exactly n times |
| DiagramLemmas.MixedDiagramShape | funcs.c:281-522 | one line without a parallel group, else 5 lines for 2 or 3 branches and 9 otherwise, always fewer than 10 |
| DiagramLemmas.MixedWithoutParallelIsSeries | funcs.c:297-305 | a mixed circuit without a parallel group is drawn as the series circuit of all its resistors |
| DiagramLemmas.MixedOfOneParallelGroup | funcs.c:316-521 | one parallel group alone is drawn as by save_parallel_diagram exactly for 3 or 5 branches |
| DiagramLemmas.SeriesRunLength | funcs.c:336-343 | each series resistor adds 12 bytes to the main line |
| DiagramLemmas.MixedMiddleLength | funcs.c:335-361 | the main line's length is 12 bytes per series resistor plus the block and a wire |
| DiagramLemmas.MixedBlockLinesFit | funcs.c:307-521 | with at most 5 resistors every line of the mixed block fits a slot |
| DiagramLemmas.MixedDiagramFits | funcs.c:281-522 | every configuration the dialogue accepts is drawn without overflowing a line slot |
| Units.ToLower | funcs.c:667 | C-locale tolower neither creates nor removes a NUL, so the in-place loop stops exactly at the end of the copied name |
| Units.Utf8Length | funcs.c:666 | the bytes `strcpy` copies: at least one per character, and exactly one per character when the name is ASCII |
| Units.Lower | funcs.c:666-667 | lower-casing keeps the length and maps every character |
| Units.DatabaseFactorsPositive | funcs.c:36-68 | every conversion factor of the table is positive |
| Units.FirstMatch | funcs.c:669-673 | the first row at or after k with the given name, or none exactly when no such row exists |
| Units.Lookup | funcs.c:664-675 | no row exactly when no table name equals the lower-cased name; a found row has that name and a positive factor |
| Units.ScanTable | funcs.c:669-674 | the scan loop returns the first row with the name, or none |
| Units.FindUnitInfo | funcs.c:664-675 | copies, lower-cases in place and scans: the first row whose name is the lower-cased argument |
| Units.ConvertUnits | funcs.c:678-693 | no result exactly when either unit is unknown or their kinds differ |
| UnitsLemmas.LowerIdempotent | funcs.c:667 | lower-casing twice changes nothing more |
| UnitsLemmas.LookupIgnoresCase | funcs.c:664-675 | a name and its lower-case form find the same row |
| UnitsLemmas.LookupFindsEveryRow | funcs.c:669-673 | in a table of distinct lower-case names every row is found by its own name |
| UnitsLemmas.DatabaseNamesLowerCase | funcs.c:36-68 | every table name is lower case, so every row is reachable |
| UnitsLemmas.DatabaseNameUnique | funcs.c:36-68 | no later row repeats the name of a row |
| UnitsLemmas.DatabaseNamesDistinct | funcs.c:36-68 | the table names are distinct |
| UnitsLemmas.DatabaseNameFits | funcs.c:36-68 | every table name fits the 20-byte lookup buffer |
| UnitsLemmas.DatabaseBaseUnitFits | funcs.c:36-68 | every base-unit name fits the 20-byte lookup buffer |
| UnitsLemmas.DatabaseNamesFit | funcs.c:36-68 | all table names and base-unit names fit the lookup buffer |
| UnitsLemmas.BaseUnitsAreListed | funcs.c:36-68 | every row's base unit is itself a row of the same kind with factor 1 |
| UnitsLemmas.ConvertToSelf | funcs.c:678-693 | converting a known unit to itself returns the value |
| UnitsLemmas.ConvertRoundTrip | funcs.c:678-693 | converting back undoes a conversion |
| UnitsLemmas.ConvertCompose | funcs.c:678-693 | converting through an intermediate unit is converting directly |
| UnitsLemmas.ConvertBetweenRows | funcs.c:678-693 | between units of the same kind the result is value * from.to_base / to.to_base |
| UnitsLemmas.ConvertToBase | funcs.c:678-693 | converting a row's unit to its listed base unit rescales to factor 1 |
| UnitsLemmas.ConvertToBaseUnit | funcs.c:36-68 | converting any table unit to its base unit multiplies the value by its factor |
| UnitsLemmas.ConvertNamed | funcs.c:678-693 | with rows found for both names, the result is the rescaled value for equal kinds and none otherwise |
| UnitsLemmas.ConvertGigabytes | funcs.c:59-60 | 1 "GB" is 1024 "mb": names are matched regardless of case |
| UnitsLemmas.ConvertMilliwatts | funcs.c:39-41 | 2500 mW is 2.5 W |
| UnitsLemmas.ConvertAcrossKindsRefused | funcs.c:685-687 | a time cannot be converted to a frequency |
| UnitsLemmas.ConvertUnknownRefused | funcs.c:681-683 | a unit missing from the table gives no result |

## Left out

- Menus, prompts, `scanf` retry loops, `print_matrix` and `display_diagram` are left out because they are console I/O. Their validation becomes preconditions. `input_matrix` only accepts extents 1..10; `Matrix.Valid()` admits extents 0..10, so the addition and product facts also cover empty matrices, and only the determinant requires extents of at least 1. The group dialogue of `handle_mixed_connection` is modelled by `WellConfigured`, plus `GroupStart(sizes, count) <= MAX_RESISTORS` where the drawing needs it.
- `draw_group`, `draw_series_group`, `draw_parallel_group` and `draw_mixed_circuit` are left out because each only calls a builder and then the display.
- `get_conversion_explanation` is left out: it is `sprintf` formatting of floating-point values.
- `unit_converter` is left out because it is an interactive loop.
- The thermodynamics calculator is left out: it is floating-point formulas and printing with no discrete logic.
- `calc_mixed_connection` is declared in `funcs.h` but never defined.
- Floating-point rounding is not modelled: `double` and `float` values are exact reals.
  - NaN is `None`.
  - The table's pi-based factors are the exact rationals of the written decimal constant.
  - dBm is a linear 1:1 alias of mW, exactly as the table states.
- Undefined behaviour of the C code is excluded by preconditions, not modelled:
  - `strcpy` into `lower_unit` of a name whose UTF-8 encoding takes 20 or more bytes (`FitsLowerUnit`, measured by `Utf8Length`);
  - a drawing line of 100 or more bytes (`AllFit`, discharged by `MixedDiagramFits` for accepted inputs);
  - `create_submatrix` with out-of-range indices.
  - Only the finished lines are bounded. A prefix written by an intermediate `strcat` is never longer than the line it ends in.
- Entries of a result matrix outside its extents are indeterminate in C. The model fills them with zeros and no contract speaks about them.
- The end-marker row `{NULL, UNIT_UNKNOWN, 0, NULL}` is not a table element. The scan stops at the end of the sequence.
- The unit table is passed to `Lookup` and `ConvertUnits` as a parameter so that the lookup and conversion properties hold for any table with positive factors. They are then instantiated for `UNIT_DATABASE`.
- `FindUnitInfo` returns the row index instead of the address of the row.
- `ToLower`: `find_unit_info` lower-cases byte by byte. A name with non-ASCII characters is accepted by `FitsLowerUnit` and is modelled, not excluded. Its bytes have the high bit set, which is a negative `char` in C. ISO C leaves `tolower` of such a value undefined, and the model takes glibc's C-locale behaviour: its table covers -128..255 and changes only `A`-`Z`. So the bytes of a non-ASCII character are left as they are, and the model lower-cases characters and leaves every non-ASCII character unchanged. Locales other than C are not modelled.
