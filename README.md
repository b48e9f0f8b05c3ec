# ApplPy random variables: a verified model of the list bookkeeping

ApplPy represents a random variable as two lists and a tag. `func` holds
the segments, one expression per piece: densities, CDF pieces, and so on.
`support` holds the breakpoints. `ftype` is `[kind, form]`, for example
`['discrete', 'pdf']`.

This project models what `applpy/rv.py` does to these lists when no
computer algebra is involved:

- the constructor's checks and the support-membership test `check_value`;
- the discrete form converters CDF, PDF, SF and IDF;
- the discrete branch of `Convolution`;
- `BootstrapRV`;
- the discrete `Mean` and `Variance`;
- the interior test point used by `IDF` and `Transform`;
- the list work of `Transform`: clamping the breakpoints into the support, dropping zero-width pieces, building the new support, the coverage lists, the density terms and the signed sums.

Breakpoints are extended reals (`ExtReals.ExtReal`: −∞, a finite real, +∞).
Discrete probabilities are `real`. Python 2's `from __future__ import
division` makes `count/numel` a real division, so the model uses real
division too.

Modules, one per file:

- `ExtReals` (ext_real.dfy): the order on extended reals.
- `Seqs` (seqs.dfy): sums, prefix sums, differences, reversal, count, `list.index`.
- `Sorting` (sorting.dfy): insertion sort under a total preorder, standing for Python's `sort`.
- `RandomVariables` (rv.dfy): the RV record, `RV.__init__` and `check_value`.
- `TestPoints` (test_points.dfy): the test-point rule.
- `DiscreteForms` (discrete_forms.dfy): the discrete converters.
- `Moments` (moments.dfy): `Mean` and `Variance`.
- `Convolutions` (convolution.dfy): the discrete `Convolution`, and the mean of a convolution as the sum of the means.
- `Bootstrap` (bootstrap.dfy): `BootstrapRV`.
- `Transforms` (transform.dfy): `Transform`.

Code that updates a list in a loop is a `method` with that loop. Each such
method is proved equal to a specification function, and the properties are
proved about that function. Two operations change their argument in place:

- `BootstrapRV` sorts `varlist`;
- `Transform` overwrites `gX[1]`.

Both take an `array` and state its new contents.

## Model

| member | source | states |
|---|---|---|
| RandomVariables.NewRV | applpy/rv.py:46-84 | a bare `func` becomes a one-element list; a non-list support raises 'Support must be a list'; otherwise the RV is accepted iff the length rule (continuous: one breakpoint more than segments, discrete: as many, other kinds: unchecked) holds, the breakpoints never decrease and the kind is continuous or discrete; the length error comes before the order error, which comes before the kind error |
| RandomVariables.CheckValueFindsSegment | applpy/rv.py:239-257 | on ordered breakpoints a value passes check_value exactly when some segment [support[i], support[i+1]] contains it |
| RandomVariables.BreakpointsPassCheck | applpy/rv.py:250-257 | every breakpoint of an ordered support passes check_value |
| RandomVariables.NonDecreasingSorted | applpy/rv.py:73-75 | the adjacent-pair order check gives support[i] <= support[j] for all i <= j |
| DiscreteForms.RunningSum | applpy/rv.py:362-366 | the `area +=` loop yields the prefix sums: cdf[i] = func[0] + ... + func[i] |
| DiscreteForms.FirstDifferences | applpy/rv.py:712-718 | the difference loop keeps element 0 and takes cdf[i] - cdf[i-1] after it |
| DiscreteForms.Reversed | applpy/rv.py:808-811 | the `reversed(range(...))` loop yields the list reversed |
| DiscreteForms.CDF | applpy/rv.py:259-375 | a point on an empty support raises IndexError in check_value; a point outside the support raises; a cdf is returned as is, an sf's SF list is reversed, any other form has its PDF summed; a point is looked up among the atoms, 0 elsewhere |
| DiscreteForms.PDF | applpy/rv.py:625-725 | a point on an empty support raises IndexError in check_value; a point outside the support raises; a pdf is returned as is, otherwise the first differences of its CDF; a point is looked up among the atoms, 0 elsewhere |
| DiscreteForms.SF | applpy/rv.py:727-820 | a point on an empty support raises IndexError in check_value; a point outside the support raises; an sf is returned as is; a pdf or cdf gets its CDF list reversed over the same support |
| DiscreteForms.IDF | applpy/rv.py:533-622 | a percentile outside [0, 1] raises; an idf is returned as is; otherwise the CDF's lists are swapped and handed to the constructor, which accepts them iff the CDF values do not decrease; a point is looked up in the original list `func` |
| DiscreteForms.ConversionsWellFormed | applpy/rv.py:362-369 | the CDF, PDF and SF of a convertible RV are again accepted by the constructor and keep its support |
| DiscreteForms.PdfOfIdempotent | applpy/rv.py:700-704 | the PDF of a PDF is itself, over the same support |
| DiscreteForms.DifferencesOfPrefixSums | applpy/rv.py:712-718 | first differences undo prefix sums for every list |
| DiscreteForms.PrefixSumsOfDifferences | applpy/rv.py:362-366 | prefix sums undo first differences for every list |
| DiscreteForms.PdfOfCdfIsIdentity | applpy/rv.py:712-720 | PDF(CDF(X)) == X for a discrete pdf X |
| DiscreteForms.CdfOfPdfIsIdentity | applpy/rv.py:362-369 | CDF(PDF(X)) == X for a discrete cdf X |
| DiscreteForms.SfCdfRoundTrip | applpy/rv.py:346-351 | CDF(SF(X)) == CDF(X) and SF(CDF(X)) == SF(X): the two reversals cancel |
| DiscreteForms.CdfEndsAtTotalMass | applpy/rv.py:362-366 | the last CDF value of a pdf is its total mass |
| DiscreteForms.CdfMonotone | applpy/rv.py:362-366 | with non-negative probabilities the CDF never decreases |
| DiscreteForms.IdfOfNonNegativePdfIsAccepted | applpy/rv.py:615-616 | the IDF of a pdf with non-negative probabilities passes the constructor's order check |
| TestPoints.TestPoint | applpy/rv.py:553-562 | 0 on the whole line, b-1 when only a is -oo, a+1 when only b is +oo, else the midpoint; strictly inside a finite interval of positive width, strictly on the finite side of a half-infinite one |
| TestPoints.CheckPoints | applpy/rv.py:553-562 | IDF's `check` list has one test point per segment, each strictly inside its finite segment |
| TestPoints.PieceTestPointInside | applpy/rv.py:1327-1334 | the test point of any interval of positive width, bounded or not, lies strictly inside it |
| Moments.Accumulate | applpy/rv.py:883-885 | the `+=` loop computes the sum of the list |
| Moments.WeightedTerms | applpy/rv.py:879-881 | the list of func[i]*support[i] sums to the dot product of atoms and probabilities |
| Moments.Mean | applpy/rv.py:854-886 | the discrete mean is the sum of support[i]*func[i] over the PDF |
| Moments.SecondMoment | applpy/rv.py:921-927 | E(X^2) is the sum of func[i]*support[i]^2 |
| Moments.Variance | applpy/rv.py:888-930 | the discrete variance is E(X^2) - Mean^2 over the PDF |
| Moments.CentralSumExpands | applpy/rv.py:929 | the sum of w(x - mu)^2 is E(X^2) - 2 mu E(X) + mu^2 times the total mass |
| Moments.CentralSumNonNegative | applpy/rv.py:929 | with non-negative weights the sum of w(x - mu)^2 is non-negative |
| Moments.VarianceNonNegative | applpy/rv.py:916-930 | for a pmf (non-negative, mass 1) the value the source computes equals the sum of f(x)(x - mean)^2 and is non-negative |
| Convolutions.Convolution | applpy/rv.py:1106-1167 | operands of different kinds raise; two continuous operands of form pdf, cdf, hf or chf, outside the lifetime case, fall through and give None; two discrete operands give the RV whose support and probabilities are the merged pairwise sums of their PDFs |
| Convolutions.MergedSums | applpy/rv.py:1143-1166 | the cross lists, sort, unzip and merge compute the convolution distribution, and its support is in order for the constructor |
| Convolutions.CrossLists | applpy/rv.py:1143-1148 | the nested loop lists every pair (s1[i] + s2[j], f1[i]*f2[j]) in loop order |
| Convolutions.Unzip | applpy/rv.py:1152-1156 | splitting sortlist gives two lists that zip back to it |
| Convolutions.MergeRepeated | applpy/rv.py:1158-1165 | the merging loop appends a new sum and adds a repeated sum's probability at the index of the first |
| Convolutions.LexLeIsTotalPreorder | applpy/rv.py:1150-1151 | Python's tuple order on (sum, probability) is a total preorder, so the sort is defined |
| Convolutions.SortHasSum | applpy/rv.py:1150-1151 | sorting the pairs neither adds nor removes a sum |
| Convolutions.MergeKeys | applpy/rv.py:1158-1165 | the merged sums are exactly the sums met |
| Convolutions.MergeIncreasing | applpy/rv.py:1158-1165 | on pairs sorted by sum the merged sums are strictly increasing |
| Convolutions.MergeMass | applpy/rv.py:1158-1165 | merging keeps the total probability |
| Convolutions.PairsSums | applpy/rv.py:1143-1148 | the sums of the cross lists are exactly the s1[i] + s2[j] |
| Convolutions.PairsMass | applpy/rv.py:1143-1148 | the cross lists carry the product of the two masses |
| Convolutions.ConvolutionDistribution | applpy/rv.py:1143-1167 | the output support is strictly increasing and holds exactly the sums s1[i] + s2[j]; each probability is the total of f1[i]*f2[j] over the pairs with that sum; the total mass is the product of the input masses |
| Convolutions.MergeStepMoment | applpy/rv.py:1161-1165 | one merging step, appending a new sum or adding to a repeated one, raises the weighted sum of the merged lists by sum times probability |
| Convolutions.MergeMoment | applpy/rv.py:1158-1165 | merging keeps the weighted sum (sum times probability) of the pairs |
| Convolutions.RowMoment | applpy/rv.py:1146-1148 | the pairs of row i weigh s1[i]*f1[i] times the mass of f2 plus f1[i] times the weighted sum of X2 |
| Convolutions.PairsMoment | applpy/rv.py:1143-1148 | the weighted sum of the cross lists is Sum(f2)*Dot(s1, f1) + Dot(s2, f2)*Sum(f1) |
| Convolutions.ConvolutionMoment | applpy/rv.py:1143-1167 | for every input, the support and probabilities the discrete branch returns have weighted sum Sum(f2)*Dot(s1, f1) + Dot(s2, f2)*Sum(f1) |
| Convolutions.ConvolutionRVMean | applpy/rv.py:1166-1167 | the returned discrete RV is a pdf with finite atoms whose mean is the weighted sum of the merged lists |
| Convolutions.ConvolutionMeanIsSum | applpy/rv.py:1106-1167 | for two discrete RVs whose pdfs have mass 1, the mean of their convolution is the sum of their means |
| Bootstrap.SortInPlace | applpy/rv.py:831 | `varlist.sort()` leaves the array holding its old contents in ascending order |
| Bootstrap.TallyLoop | applpy/rv.py:836-842 | the loop, with its membership test on the support, computes the tabulation of the sorted variates |
| Bootstrap.BootstrapRV | applpy/rv.py:822-844 | the variates are sorted in place and the discrete pdf of the tabulation is returned |
| Bootstrap.TabulateMembers | applpy/rv.py:836-842 | the support holds exactly the variates visited |
| Bootstrap.TabulateIncreasing | applpy/rv.py:836-842 | on sorted variates the support is strictly increasing |
| Bootstrap.TabulateShares | applpy/rv.py:836-842 | each support value carries probability count/n |
| Bootstrap.TabulateMass | applpy/rv.py:836-842 | the probabilities add up to the counts of the support values over n |
| Bootstrap.BootstrapDistribution | applpy/rv.py:836-844 | each distinct variate appears once, in increasing order, with probability count/n, and the probabilities of a non-empty list add up to 1 |
| Bootstrap.AsWrittenDropsVariate | applpy/rv.py:840 | with the test on funclist, the variates [0.1, 0.5] lose 0.5 (it equals the probability 1/2 already listed) and the mass is 1/2 |
| Bootstrap.AsWrittenRepeatsVariate | applpy/rv.py:840 | with the test on funclist, the variates [2.0, 2.0] give the support [2.0, 2.0] and mass 2 |
| Transforms.ClampToSupport | applpy/rv.py:1291-1295 | the loop overwrites every breakpoint of gX with its clamp into [support[0], support[last]] |
| Transforms.ClampWithin | applpy/rv.py:1291-1295 | a clamped breakpoint lies within the support; a breakpoint already within it is kept |
| Transforms.ClampAllProperties | applpy/rv.py:1291-1295 | after clamping every breakpoint lies within the support; clamping twice is clamping once; clamping keeps the breakpoints in order |
| Transforms.DropDegenerate | applpy/rv.py:1297-1300 | the pieces of zero width are dropped with their right breakpoint |
| Transforms.DropSelects | applpy/rv.py:1297-1300 | the kept pieces are exactly the pieces with gX[1][i] != gX[1][i+1], in order, with their functions and both ends |
| Transforms.DropAscending | applpy/rv.py:1297-1300 | on ordered breakpoints every kept piece has positive width |
| Transforms.Mappings | applpy/rv.py:1302-1306 | mapping[i] is the pair of images of piece i at its two ends |
| Transforms.TransSupport | applpy/rv.py:1307-1313 | trans_supp is the list of first occurrences of the endpoint images, sorted |
| Transforms.SupportOfMapping | applpy/rv.py:1307-1313 | trans_supp is strictly ascending (sorted, without duplicates) and holds exactly the images of the piece ends |
| Transforms.Coverage | applpy/rv.py:1314-1322 | applist[i] lists, in order, the output pieces j with min(mapping[i]) <= trans_supp[j] and trans_supp[j+1] <= max(mapping[i]) |
| Transforms.CoveredMembers | applpy/rv.py:1314-1322 | j is in applist[i] iff output piece j lies within [min mapping[i], max mapping[i]] |
| Transforms.CoverageRange | applpy/rv.py:1314-1322 | a piece covers exactly the output pieces between the positions of its lower and its upper image in trans_supp |
| Transforms.SegmentTerms | applpy/rv.py:1343-1355 | seg_func has one term per (support segment, piece) whose piece lies within that segment, segments outer, pieces inner |
| Transforms.OwnersComplete | applpy/rv.py:1343-1355 | every (segment, piece) pair that fits has its term in seg_func |
| Transforms.OwnersOrder | applpy/rv.py:1343-1355 | on ordered support and pieces of positive width the terms of seg_func come in strictly rising piece order |
| Transforms.SegmentTermsAligned | applpy/rv.py:1343-1365 | seg_func has at most one term per piece, so the sum loop's mapping[j] and applist[j] exist; when every piece lies within a support segment, term j is piece j's |
| Transforms.SignedSums | applpy/rv.py:1356-1365 | trans_func[i] adds seg_func[j] for each rising piece j covering output piece i and subtracts it for each falling one; it records whether some term reached h, which otherwise stays the int 0 |
| Transforms.Substitute | applpy/rv.py:1366-1369 | the `.subs(t, x)` loop raises AttributeError iff some piece is still the int 0, and otherwise keeps the pieces |
| Transforms.SignedSumSplit | applpy/rv.py:1356-1365 | each output piece is the sum of the terms of the rising covering pieces minus that of the falling ones |
| Transforms.UncoveredPieceIsZero | applpy/rv.py:1356-1365 | an output piece no term covers sums to 0 and its h never becomes an expression |
| Transforms.SignRuleNonNegative | applpy/rv.py:1356-1365 | when every term has the sign of its piece's slope, every output piece is non-negative |
| Transforms.KeptPieces | applpy/rv.py:1291-1300 | the pieces left after the clamp and the drop have strictly ascending breakpoints |
| Transforms.KeptPiecesProperties | applpy/rv.py:1291-1334 | the kept pieces are the clamped pieces of non-zero width, lie within the support, and have their test points strictly inside |
| Transforms.TransformClamped | applpy/rv.py:1297-1365 | after the clamp the drop, mappings, trans_supp, applist, seg_func and trans_func compute the transformed support, the pieces and which pieces received a term |
| Transforms.Transform | applpy/rv.py:1271-1370 | a discrete RV gives no result and gX unchanged; a continuous one has gX[1] clamped in place and gets AttributeError when an output piece received no term, and otherwise the continuous pdf over trans_supp with the signed sums, refused for want of a breakpoint when nothing is left |
| Transforms.TransformRaisesIffUncovered | applpy/rv.py:1356-1370 | Transform raises AttributeError exactly when some output piece is covered by none of the mappings paired with seg_func's terms |
| Transforms.TransformedShape | applpy/rv.py:1307-1370 | the transformed support is strictly ascending, holds exactly the end images of the kept pieces, and has one pdf piece per gap |

## Left out

- Continuous conversions, the continuous `Mean`/`Variance`, and the lifetime case of `Convolution` (applpy/rv.py:1129-1133) are left out. They call sympy's `integrate`, `diff`, `solve`, `simplify` and `limit`. Where a continuous RV flows through `Transform`, its segments are an abstract type.
- Discrete hf and chf forms (applpy/rv.py:377-531, 778-804) are left out. They use `exp`, `log` and divisions by segment values. Discrete idf and unknown forms make CDF and PDF call each other without end. The converters require a pdf, cdf or sf (IDF also takes an idf).
- DiscreteForms.CDF, DiscreteForms.PDF: evaluation at an atom of a pdf's CDF (applpy/rv.py:374), and of a cdf's or sf's PDF (applpy/rv.py:725), reads `.func` off a plain list and crashes. Those calls are excluded by a precondition.
- Moments.Mean, Moments.Variance, Convolutions.Convolution require finite atoms. Mean and Variance are stated for discrete RVs.
- Convolutions.Convolution: the lifetime case of two continuous RVs (applpy/rv.py:1129-1133) is excluded by a precondition, because it integrates symbolically.
- Convolutions.Convolution: continuous operands of form sf, idf or an unknown form are excluded by a precondition. `PDF(RVar1)` at applpy/rv.py:1121 runs before the kind test; for these forms PDF calls CDF (applpy/rv.py:684), whose sf test at applpy/rv.py:287 compares the kind with 'sf' and so calls PDF again (applpy/rv.py:305-306), without end. The other continuous pairs (pdf, cdf, hf, chf) are modelled: they return None.
- IDF's inverse selection by `solve` and `evalf` with tolerance 1e-5 (applpy/rv.py:566-581) and Transform's `ginv` selection (applpy/rv.py:1336-1341) are left out. Only the test-point geometry is modelled. The ginv loop reuses the name `i` for its inner index, which is not modelled either.
- Transforms.Transform takes X already in PDF form, because the conversion of a continuous RV is symbolic. The images g(b) of the piece ends are a parameter `eval`. The density term f_i(g_j^-1(t)) * d/dt g_j^-1(t) is a parameter `tran(i, j)`. On an expression, `subs(t, x)` only renames the variable, so the model keeps the value.
- Transforms.Transform requires the breakpoints of gX in order. With unordered breakpoints seg_func can have more terms than there are mappings, and the sum loop would index past `mapping`.
- Transforms.DropDegenerate: the source removes zero-width pieces with `list.remove` while iterating over `range(len(gX[0])-1)`. That loop never looks at the last piece. `remove` deletes the first equal element, not the one at i, and the shrinking list can be indexed past its end. The model drops every zero-width piece on new lists, as intended. The caller's gX[0] keeps its pieces and the removals are not visible to the caller.
- Bootstrap.SortInPlace: `sort()` is modelled by its effect, the array's sorted contents. The algorithm is not modelled.
- Python's `sort` on (sum, probability) tuples in Convolution is modelled by its result, an ordered permutation. Which permutation Python picks among equal tuples does not change the merged lists.
- `RV.variate`, `verifyPDF`, `display`/`__repr__`, `__len__` and `__add__` are left out. They are random number generation or printing.
- Plotting (applpy/rv.py:941-1097), applpy/plot.py, applpy/applpy.py and applpy/dist_type.py are left out. They are plotting, a printing menu, and constructors with fixed symbolic expressions.
- The commented-out `Transform2` (applpy/rv.py:1170-1269) is left out.
- Floating point is modelled as exact reals.

## Findings

| source | as written | input that shows it | evidently intended | confidence | as-written member | corrected member |
|---|---|---|---|---|---|---|
| applpy/rv.py:840 | `if varlist[i] not in funclist` tests the new variate against the list of probabilities | variates [0.1, 0.5]: 0.5 equals the probability 1/2 of 0.1 and is dropped (mass 1/2); variates [2.0, 2.0]: 2.0 is listed twice (mass 2) | test against supplist, so each distinct variate appears once with probability count/n | not executed | Bootstrap.AsWrittenDropsVariate | Bootstrap.BootstrapRV |
