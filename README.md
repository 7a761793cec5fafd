# Medical tracker core, modelled in Dafny

This project models the logic of a React single-page app for tracking
medical readings of several patients. These are blood glucose,
cholesterol, haemoglobin, TSH, creatinine and any parameter the user
defines. It models the app's data stores and plain utility modules, plus the
small pure rules inside its components, and proves what they promise.

- **Hybrid setpoint** (`setpointCalculator.js`). The readings whose
  inclusion flag is not `false` are counted. None gives no result and one to
  four give an error naming the count. Below the threshold (20 by default)
  the robust estimator is used, from it the Gaussian-mixture estimator. The
  result gets a confidence tier and provenance counters. It is then formatted
  with coefficient-of-variation bands, and turned into a list of
  recommendations.
- **Robust estimator** (`robustStatistics.js`). Linear-interpolation
  quartiles and Tukey fences. The input is split in order into kept values and
  outliers, falling back to all values when none is kept. The setpoint is the
  mean of the values used, with the population standard deviation.
- **Gaussian-mixture estimator** (`gmmStatistics.js`).
  - A guard below 10 values.
  - k-means seeded at `sorted[floor((i+1)n/(k+1))]`, with nearest-centroid
    assignment (first index on ties), bounded by 50 passes.
  - EM for 2 and 3 components, bounded by 100 iterations. It has a
    uniform-row fallback, a 0.001 weight fallback and a 0.01 variance floor,
    and renormalises the proportions.
  - AIC, and selection of the first strict minimum.
  - The dominance and confidence rule, and the summary, whose std is
    reproduced as the source computes it.
- **Unit conversions** (`unitConversions.js`). The per-category unit and
  factor tables, `convertUnit` with its identity fallbacks, first-match
  category detection by name, default and available units.
- **Codice fiscale and patient helpers** (`patientUtils.js`). The 16-character
  layout test, normalisation, sex and birth-date extraction, age, and the
  last-visit check. "Today" is a parameter.
- **Stores** (`MedicalContext.jsx`, `PatientContext.jsx`). Classes holding
  the parameters, measurements, patients, visits and the active patient id.
  They have the source's CRUD methods, visit counters kept equal to the number
  of each patient's visits, the personal range `mean ± m·sd`, search, the tag
  filter and the attention filter.
- **Component rules**.
  - The traffic-light status and the latest-ten list with its tally
    (`StatusOverview.jsx`).
  - The calendar's month grid and day lookup (`ParameterCalendarView.jsx`).
  - The chart's points and Y-axis domain (`Chart.jsx`).
  - Per-parameter statistics and trend (`Analytics.jsx`).
  - The parameter form and its formula-string round trip
    (`ParameterManager.jsx`).
  - The patient form's validation, tag toggling, auto-fill and submit
    (`PatientForm.jsx`).

Numbers are Dafny `real`s. Where JavaScript can produce a non-finite value
(a cv over a zero mean, the AIC of a zero variance, a division by zero), the
model uses `Numerics.JsNumber`. That is a finite real, NaN or an infinity,
with IEEE-style arithmetic and comparisons. `Math.sqrt`, the Gaussian density,
`Math.log` and `toFixed` rounding are fields of a `Numerics.Numerics` record
passed in. `Numerics.Lawful` states the only facts the code relies on: a
square root is non-negative and inverts squaring on non-negative numbers, and
a density of positive variance is non-negative. Clock readings and fresh ids
are parameters too.

The patient search is modelled as the code has it: the phone field, as
stored, is compared against the *lower-cased* search term
(`src/context/PatientContext.jsx:189`), not against the term as typed.

Modules follow the source files. `Wrappers`, `Numerics`, `Strings`,
`Sequences`, `Stats` and `Records` are helpers shared by the modules that
model the files: `SetpointCalculator`, `RobustStatistics`, `GmmStatistics`,
`UnitConversions`, `PatientUtils`, `MedicalContext`, `PatientContext`,
`ParameterManager`, `PatientForm`, `StatusOverview`, `CalendarView`, `Chart`
and `Analytics`. Each loop in the source is a method with loop invariants,
proved against a specification function. These are the k-means seeding,
assignment and passes, the M-step, the EM loop, the AIC sum, model selection,
the candidate loop and the month grid. The step-by-step updates are methods
too: the recommendation pushes and the validation messages. State the source
updates in place is a class with `seq` fields and `modifies` clauses; the
patient store also keeps an invariant `Valid()`.

## Model

| member | source | states |
|---|---|---|
| PatientUtils.LayoutGroups | src/utils/patientUtils.js:2-5 | the layout test holds exactly for 16 characters: six upper-case letters, two digits, a letter, two digits, a letter, three digits, a letter |
| PatientUtils.ValidationIgnoresCase | src/utils/patientUtils.js:2-5 | validity is the same for the code, its upper-case form and its lower-case form |
| PatientUtils.ValidCharacters | src/utils/patientUtils.js:2-5 | a valid code has 16 characters, an ASCII letter of either case at each letter position and a digit at every other |
| PatientUtils.FormatIsNormal | src/utils/patientUtils.js:62-64 | the formatted code has no white space, is already upper case, and formatting it again changes nothing |
| PatientUtils.FormatAndValidate | src/utils/patientUtils.js:62-64 | a formatted code is valid iff it matches the layout as it stands; formatting a valid code gives its upper-case form, still valid |
| PatientUtils.ExtractSexFromCF | src/utils/patientUtils.js:8-12 | nothing for fewer than 11 characters; 'F' exactly when characters 9 and 10 parse to more than 40; 'M' otherwise, an unparsable field included |
| PatientUtils.ValidCodeSex | src/utils/patientUtils.js:8-12 | on a code of the valid layout the sex is 'F' exactly when the two-digit day field exceeds 40, else 'M' |
| PatientUtils.MonthCodeLetters | src/utils/patientUtils.js:22-27 | exactly the twelve month letters map to a month, each of two characters; any other letter yields "undefined" in the date |
| PatientUtils.MonthCodeIsPosition | src/utils/patientUtils.js:22-25 | the i-th month letter A B C D E H L M P R S T maps to month i + 1 written with two digits |
| PatientUtils.ValidCodeBirthDate | src/utils/patientUtils.js:15-36 | on a code of the valid layout the date is century + year + month + day, the day less 40 above 40, century 19 when the year is past the current two-digit year, and the day is below 60 |
| PatientUtils.ValidBirthDateLength | src/utils/patientUtils.js:15-36 | with a month letter the date read from a valid-layout code is ten characters long |
| PatientUtils.AgeCountsAnniversaries | src/utils/patientUtils.js:39-49 | the age is the count of completed years: the a-th anniversary is on or before today exactly when a is at most the age |
| PatientUtils.AgeNonNegative | src/utils/patientUtils.js:39-49 | someone born on or before today has a non-negative age |
| PatientUtils.CeilDiv | src/utils/patientUtils.js:73 | the result r is the ceiling of x / d: (r - 1)·d < x <= r·d |
| PatientUtils.LastVisitRule | src/utils/patientUtils.js:67-79 | no date gives no alert and no count; otherwise the count is the number of started days between the two instants, either way round, and the alert fires exactly when it reaches the warning days |
| RobustStatistics.Rank | src/utils/robustStatistics.js:7 | the rank (n - 1)·q lies in [0, n - 1] |
| RobustStatistics.QuantileBetween | src/utils/robustStatistics.js:6-14 | the quantile lies between the order statistic at floor((n-1)q) and the next one, and is the last element when there is no next one |
| RobustStatistics.QuantileInRange | src/utils/robustStatistics.js:6-14 | the quantile of sorted data lies between its least and greatest value |
| RobustStatistics.QuantileMonotone | src/utils/robustStatistics.js:6-14 | on sorted data a larger q never gives a smaller quantile |
| RobustStatistics.TukeyFences | src/utils/robustStatistics.js:27-36 | q1 <= q2 <= q3, the IQR is non-negative, and for a non-negative multiplier the fences enclose the quartiles |
| RobustStatistics.Partition | src/utils/robustStatistics.js:38-39 | kept values and outliers split the input as a multiset, by the fence test, their sizes adding up to n |
| RobustStatistics.DataUsed | src/utils/robustStatistics.js:40 | the values used are non-empty and drawn from the input |
| RobustStatistics.InterquartileKept | src/utils/robustStatistics.js:35-40 | every value between q1 and q3 passes the fences, and the kept values are then the values used |
| RobustStatistics.KeptNonEmpty | src/utils/robustStatistics.js:35-40 | with a non-negative multiplier, at least 0.5 when there are two readings, some reading survives the fences and the kept readings are the ones used |
| RobustStatistics.TwoReadingsNoneKept | src/utils/robustStatistics.js:35-40 | with two readings and multiplier 0 the fences exclude both, and the fall-back uses all readings |
| RobustStatistics.SetpointWithinData | src/utils/robustStatistics.js:42 | the setpoint, the mean of the values used, lies between their least and greatest |
| RobustStatistics.CalculateRobustMean | src/utils/robustStatistics.js:26-65 | the counts are the input size, the values used (at least one) and the outliers; setpoint, std and outliers are the rounded mean, population deviation and outlier list of the values used; cv is the rounded deviation over mean times 100; quartiles, IQR and bounds are the rounded Tukey fences of the input |
| RobustStatistics.FencesIgnoreOrder | src/utils/robustStatistics.js:27 | the fences depend on the multiset of values only, not their order |
| RobustStatistics.SortedInputFences | src/utils/robustStatistics.js:27 | sorted input is left unchanged by the sort |
| RobustStatistics.PermutationFences | src/utils/robustStatistics.js:27-36 | input holding the same readings as a sorted list has that list's fences |
| RobustStatistics.ExampleFences | src/utils/robustStatistics.js:6-36 | the eight-reading example has quartiles 69.75, 70.5, 72.25, IQR 2.5 and fences 66 and 76 |
| RobustStatistics.ExampleInputFences | src/utils/robustStatistics.js:27-36 | any order of those eight readings, the input [70, 72, 68, 71, 69, 73, 70, 500] among them, has those fences |
| RobustStatistics.ExampleReadings | src/utils/robustStatistics.js:27 | the input [70, 72, 68, 71, 69, 73, 70, 500] holds exactly the readings [68, 69, 70, 70, 71, 72, 73, 500] that the sort yields |
| RobustStatistics.ExampleSplit | src/utils/robustStatistics.js:38-42 | on the input [70, 72, 68, 71, 69, 73, 70, 500] 500 is the only outlier, the other seven are kept in input order, and the setpoint is 493/7, their mean |
| Stats.Sort | src/utils/robustStatistics.js:27 | the numeric sort returns a sorted permutation of its input |
| Stats.SortIsUnique | src/utils/robustStatistics.js:27 | any sorted permutation of the input is the sort's result |
| Stats.SortEnds | src/utils/gmmStatistics.js:23 | the sorted sequence starts with the least value and ends with the greatest |
| Stats.PopVariance | src/utils/robustStatistics.js:20-24 | the population variance is non-negative |
| Stats.MinMaxBound | src/pages/Analytics.jsx:17-18 | `Math.min`/`Math.max` of a non-empty list are elements of it and bound every element |
| Stats.MeanBetweenMinMax | src/utils/robustStatistics.js:16-18 | the mean of a non-empty list lies between its least and greatest value |
| Stats.FirstArgMax | src/utils/gmmStatistics.js:189-190 | the result is the first index holding the greatest value: no element is greater, and every earlier one is smaller |
| Stats.FirstArgMin | src/utils/gmmStatistics.js:38 | the result is the first index holding the least value |
| GmmStatistics.SeedIndex | src/utils/gmmStatistics.js:26 | `floor((i + 1)·n / (k + 1))` is always a valid index of the sorted values |
| GmmStatistics.SeedCentroids | src/utils/gmmStatistics.js:24-28 | the seeding loop pushes the sorted value at each seed index, in order |
| GmmStatistics.Nearest | src/utils/gmmStatistics.js:37-38 | the chosen centroid is nearest the value, and the lowest index among equally near ones |
| GmmStatistics.Distances | src/utils/gmmStatistics.js:37 | one distance per centroid, the absolute difference from the value |
| GmmStatistics.Cluster | src/utils/gmmStatistics.js:36-40 | a cluster holds only values of the input whose nearest centroid is its own |
| GmmStatistics.AssignPartition | src/utils/gmmStatistics.js:35-40 | an assignment pass puts every value in the cluster of its nearest centroid, and the cluster sizes add up to n |
| GmmStatistics.AssignPass | src/utils/gmmStatistics.js:35-40 | the `forEach` loop builds exactly the assignment of the values to their nearest centroids |
| GmmStatistics.UpdateCentroids | src/utils/gmmStatistics.js:42-44 | one new centroid per cluster; an empty cluster keeps its old centroid |
| GmmStatistics.UpdatedCentroidWithinCluster | src/utils/gmmStatistics.js:42-44 | a non-empty cluster's new centroid lies between its least and greatest value; an empty cluster keeps its centroid |
| GmmStatistics.LloydPass | src/utils/gmmStatistics.js:35-46 | one pass returns the assignment, the updated centroids, and `changed` exactly when some centroid moved by 0.001 or more |
| GmmStatistics.LloydAssigns | src/utils/gmmStatistics.js:34-51 | after at least one pass the clusters returned are the assignment for the last centroids |
| GmmStatistics.KMeans | src/utils/gmmStatistics.js:22-52 | the while loop, at most maxIter passes stopped by convergence, returns the clusters of the Lloyd iteration from the seeds |
| GmmStatistics.KMeansPartition | src/utils/gmmStatistics.js:22-52 | with at least one pass k-means returns k clusters that together hold every value once |
| GmmStatistics.InitialFit | src/utils/gmmStatistics.js:57-61 | the starting variances are at the 0.01 floor or above and the proportions are the cluster shares |
| GmmStatistics.SharesOfAll | src/utils/gmmStatistics.js:59 | shares of clusters holding all n values add up to 1 |
| GmmStatistics.Shares | src/utils/gmmStatistics.js:59 | one non-negative share per cluster |
| GmmStatistics.Row | src/utils/gmmStatistics.js:64-70 | each responsibility row sums to 1, and is uniform 1/k when the weighted densities do not sum to a positive number |
| GmmStatistics.RowNonNegative | src/utils/gmmStatistics.js:64-70 | with non-negative proportions every responsibility is non-negative |
| GmmStatistics.WeightedDensities | src/utils/gmmStatistics.js:65-67 | one weighted density per component, its proportion times the density at its mean and variance |
| GmmStatistics.Responsibilities | src/utils/gmmStatistics.js:64-70 | one responsibility row per value, normalised as stated for a row |
| GmmStatistics.UpdateComponent | src/utils/gmmStatistics.js:76-96 | a component whose weights sum below 0.001 keeps its mean and variance and gets proportion 0.001; otherwise its proportion is weight sum over n; the variance is never below 0.01 |
| GmmStatistics.MStep | src/utils/gmmStatistics.js:72-96 | the M-step loop produces the component-wise update, every proportion positive and every variance floored |
| GmmStatistics.MStepFit | src/utils/gmmStatistics.js:72-102 | the M-step keeps the number of components and the 0.01 variance floor and makes every proportion positive |
| GmmStatistics.EmIteration | src/utils/gmmStatistics.js:63-102 | one E-step and M-step keep the number of components and the variance floor and make every proportion positive |
| GmmStatistics.EmStep | src/utils/gmmStatistics.js:63-102 | the loop body computes exactly one EM iteration |
| GmmStatistics.Em | src/utils/gmmStatistics.js:63-105 | the EM iterations keep the number of components and the variance floor, and after one iteration every proportion is positive |
| GmmStatistics.RunEm | src/utils/gmmStatistics.js:63-105 | the EM for loop, leaving after the iteration whose means moved less than 0.001, computes the bounded EM iteration |
| GmmStatistics.Renormalize | src/utils/gmmStatistics.js:107-108 | renormalised proportions sum to 1 and the means and variances are untouched |
| GmmStatistics.FittedProportions | src/utils/gmmStatistics.js:107 | the proportions before renormalisation have a positive sum, so the division is defined |
| GmmStatistics.FitEMResult | src/utils/gmmStatistics.js:54-111 | the fit has k components, variances at least 0.01 and proportions summing to 1, all positive once an EM iteration ran |
| GmmStatistics.FitEM | src/utils/gmmStatistics.js:54-111 | `fitEMGMM` computes that fit from the k-means clusters |
| GmmStatistics.CalculateAic | src/utils/gmmStatistics.js:113-127 | the nested loops compute 2·(3k - 1) - 2·logL, each value adding the log of its likelihood floored at 1e-10 |
| GmmStatistics.AicFinite | src/utils/gmmStatistics.js:113-127 | with every variance positive the AIC is finite |
| GmmStatistics.AicNaN | src/utils/gmmStatistics.js:16-20 | on non-empty data a component of variance 0 makes the AIC NaN |
| GmmStatistics.SelectedIsFirstMinimum | src/utils/gmmStatistics.js:164-173 | the selected model is the first with the strictly least AIC below Infinity; none is selected exactly when every AIC is NaN or Infinity |
| GmmStatistics.SelectModel | src/utils/gmmStatistics.js:164-173 | the `forEach` keeps that selection and the running minimum |
| GmmStatistics.Choose | src/utils/gmmStatistics.js:179-206 | one component gives its mean and high confidence; a dominant share (over 0.7 for two, 0.45 for three) gives the first largest component, high iff over 0.8; otherwise the overall mean with medium confidence |
| GmmStatistics.StdQuirk | src/utils/gmmStatistics.js:209-211 | the reported std is the standard deviation divided by 100, since the formula treats the fraction cv as a percentage |
| GmmStatistics.ZeroSetpointStd | src/utils/gmmStatistics.js:185-211 | a zero setpoint makes the cv non-finite and the reported std NaN |
| GmmStatistics.Summary | src/utils/gmmStatistics.js:216-222 | one rounded mean, std, cv and percentage proportion per component |
| GmmStatistics.AicScores | src/utils/gmmStatistics.js:224 | one rounded AIC per candidate, in order |
| GmmStatistics.Report | src/utils/gmmStatistics.js:208-225 | the returned object carries the chosen setpoint, cv, std, confidence and cluster of the selected model, its summary and all scores |
| GmmStatistics.CandidateFit | src/utils/gmmStatistics.js:137-158 | candidate k has k components and non-negative variances; for k > 1 they are floored and the proportions sum to 1 |
| GmmStatistics.SingleFit | src/utils/gmmStatistics.js:139-146 | the one-component fit is well shaped with a non-negative variance |
| GmmStatistics.Candidates | src/utils/gmmStatistics.js:134-162 | the three candidates are those of k = 1, 2, 3 in order |
| GmmStatistics.FitCandidate | src/utils/gmmStatistics.js:139-158 | the loop body computes candidate k: the mean and population variance for k = 1, else the EM fit, with its AIC |
| GmmStatistics.PushCandidate | src/utils/gmmStatistics.js:137-162 | each loop turn extends the list of the first candidates by the next one |
| GmmStatistics.CalculateGmmSetpoint | src/utils/gmmStatistics.js:129-226 | the method's result is the error for fewer than 10 values, the error when no model is selected, or the report of the selected candidate |
| GmmStatistics.TooFewGuard | src/utils/gmmStatistics.js:130-132 | the too-few error is returned exactly for fewer than 10 values |
| GmmStatistics.AlwaysFits | src/utils/gmmStatistics.js:175-177 | with at least 10 values a model is always selected, so "Impossibile fittare GMM" is never raised |
| GmmStatistics.ResultShape | src/utils/gmmStatistics.js:179-225 | every success has 1 to 3 components, three scores, confidence high or medium (high for one component), and a dominant cluster only for two or three components, numbered from 1 |
| GmmStatistics.ConstantDataSplits | src/utils/gmmStatistics.js:139-148 | constant data never selects one component, whose zero variance makes its AIC NaN |
| SetpointCalculator.IncludedOf | src/utils/setpointCalculator.js:22 | the kept measurements are exactly those whose flag is not false, a missing flag counting as included |
| SetpointCalculator.RobustConfidence | src/utils/setpointCalculator.js:56 | never high; medium from 15 values, medium-low from 10 to 14, low below 10 |
| SetpointCalculator.SmallSamples | src/utils/setpointCalculator.js:24-33 | null exactly when nothing is included; one to four included values give the error naming the count |
| SetpointCalculator.Provenance | src/utils/setpointCalculator.js:38-79 | every result has at least 5 values, records n, the input length, the excluded count and the threshold, and came from GMM exactly when n reached the threshold |
| SetpointCalculator.RobustResultShape | src/utils/setpointCalculator.js:50-70 | a robust result has one component, the estimator's setpoint and outliers, and a sample-size confidence that is never high |
| SetpointCalculator.ErrorsOnlyFromGmmGuard | src/utils/setpointCalculator.js:81-87 | from five values on, the calculation fails exactly when the threshold sends fewer than 10 values to GMM, with the GMM guard's message |
| SetpointCalculator.CvBands | src/utils/setpointCalculator.js:105-109 | the stability label bands are [.., 5), [5, 10), [10, 15), [15, 20), [20, ..), and a NaN cv gets the last |
| SetpointCalculator.FormatSetpointResult | src/utils/setpointCalculator.js:93-127 | null exactly for null or an error; otherwise the result's setpoint, cv, std, method, count and outliers copied, the unit given, the cv and confidence labels, the outlier flag, and the component count, 1 when the result has none |
| SetpointCalculator.FiredMembers | src/utils/setpointCalculator.js:132-179 | a recommendation is given exactly when a rule carrying it fires |
| SetpointCalculator.FiredFive | src/utils/setpointCalculator.js:138-176 | the five rules contribute in their fixed order |
| SetpointCalculator.NoneFired | src/utils/setpointCalculator.js:132-179 | when no rule fires there is no recommendation |
| SetpointCalculator.GetRecommendations | src/utils/setpointCalculator.js:132-179 | the method's pushes give [] for null or an error, else the recommendations of the rules that fire, in order |
| SetpointCalculator.RecommendationsIgnoreThreshold | src/utils/setpointCalculator.js:132-179 | the advice does not depend on the threshold recorded in the result |
| SetpointCalculator.SmallSampleAdvice | src/utils/setpointCalculator.js:138-152 | below 10 measurements the advice starts with the two sample-size notes |
| SetpointCalculator.QuietGmm | src/utils/setpointCalculator.js:132-179 | a GMM result from at least 20 measurements with cv at most 20 (or NaN) gets no advice |
| SetpointCalculator.AdviceCountsFromTwenty | src/utils/setpointCalculator.js:170-176 | a robust result from at least 15 measurements always gets the advice counted from the hard-coded 20, whatever the threshold |
| UnitConversions.DetectIsFirstMatch | src/utils/unitConversions.js:93-104 | the category is the first entry of the keyword table the lower-cased name mentions, tried glucose, cholesterol, hemoglobin, thyroid, creatinine, urea, else generic |
| UnitConversions.DetectedIsKnown | src/utils/unitConversions.js:93-104 | the detected category is a key of the unit table, and detection ignores letter case |
| UnitConversions.KeyInjective | src/utils/unitConversions.js:113 | a `from_to_to` key of units without '_' determines both units |
| UnitConversions.ConvertibleUnitsClean | src/utils/unitConversions.js:2-90 | no unit name of the conversion tables contains '_' |
| UnitConversions.TableInverses | src/utils/unitConversions.js:9-70 | every key of a category's table has its reverse key, holding the inverse conversion |
| UnitConversions.RoundTrip | src/utils/unitConversions.js:107-121 | converting a to b and back gives the value back, in exact arithmetic, for every pair a table defines |
| UnitConversions.ThyroidIdentity | src/utils/unitConversions.js:45-48 | every conversion in the thyroid category is the identity |
| UnitConversions.Fallbacks | src/utils/unitConversions.js:107-121 | an unknown category, the generic category and a pair without a table entry (g/L to mmol/L) keep the value |
| UnitConversions.FindDefault | src/utils/unitConversions.js:128 | the index of the first unit flagged default, -1 when none is |
| UnitConversions.DefaultIsOffered | src/utils/unitConversions.js:124-138 | every category's available units include its default unit, and a known category's default is a flagged unit |
| MedicalContext.MedicalStore.constructor | src/context/MedicalContext.jsx:13-83 | a store with nothing saved holds the five default parameters and no measurements |
| MedicalContext.MedicalStore.AddParameter | src/context/MedicalContext.jsx:110-116 | the parameter is appended with id `param_<now>`; the measurements are unchanged |
| MedicalContext.MedicalStore.UpdateParameter | src/context/MedicalContext.jsx:118-122 | the parameters become the merged update; the measurements are unchanged |
| MedicalContext.UpdateParameterFacts | src/context/MedicalContext.jsx:118-122 | an update keeps every id and position, leaves other parameters alone, gives matching ones the new data, is idempotent, and an unknown id changes nothing |
| MedicalContext.MedicalStore.DeleteParameter | src/context/MedicalContext.jsx:124-133 | the parameters with that id go, and the measurements of its name when one was found |
| MedicalContext.DeleteParameterFacts | src/context/MedicalContext.jsx:124-133 | afterwards no parameter has the id and no measurement the deleted name; survivors were there before; an unknown id changes nothing |
| MedicalContext.MedicalStore.AddMeasurement | src/context/MedicalContext.jsx:136-144 | the new record is appended; the parameters are unchanged |
| MedicalContext.NewMeasurement | src/context/MedicalContext.jsx:136-144 | the stored record has id now, the flag true, the entry's fields, and no patient exactly when the entry's patient id is absent or empty |
| MedicalContext.MedicalStore.RemoveMeasurement | src/context/MedicalContext.jsx:146-148 | the records with that id go, the rest stay in order |
| MedicalContext.MedicalStore.ToggleIncludeInFormula | src/context/MedicalContext.jsx:150-154 | the flags of the records with that id are negated; the parameters are unchanged |
| MedicalContext.FlipTwice | src/context/MedicalContext.jsx:152 | negating twice gives back a boolean flag and turns a missing one into false |
| MedicalContext.ToggleFacts | src/context/MedicalContext.jsx:150-154 | a toggle changes only the flag of the records with that id; toggling twice restores every boolean flag |
| MedicalContext.FormulaMultiplier | src/context/MedicalContext.jsx:172-174 | the multiplier is 1 iff the formula has '1*sd' but not '1.5*sd', else 2 iff it has '2*sd', else 1.5 |
| MedicalContext.CustomRangeFacts | src/context/MedicalContext.jsx:156-182 | the range exists exactly when two or more records count; its bounds are their mean less and plus the multiplier times their population standard deviation, the mean lies between their extremes, with min ≤ mean ≤ max for a lawful square root, and the multiplier is 1, 1.5 or 2 |
| MedicalContext.CustomRangeIgnoresOthers | src/context/MedicalContext.jsx:157-161 | records of other parameters do not change the range |
| PatientContext.ActivePatient | src/context/PatientContext.jsx:69-71 | the active patient is one of the patients with the active id, and there is none exactly when no id is active or no patient has it |
| PatientContext.PatientStore.constructor | src/context/PatientContext.jsx:14-17 | an empty store, no active patient, satisfying the store invariant |
| PatientContext.PatientStore.AddPatient | src/context/PatientContext.jsx:74-86 | the new patient is appended and its id returned; the visit counters still match the visits |
| PatientContext.PatientStore.UpdatePatient | src/context/PatientContext.jsx:89-95 | the patients become the merged update; a patch without a visit count keeps the invariant |
| PatientContext.UpdatePatientFacts | src/context/PatientContext.jsx:89-95 | an update keeps ids and positions, touches only that id's patients, sets exactly the patched fields and stamps updatedAt |
| PatientContext.PatientStore.DeletePatient | src/context/PatientContext.jsx:98-109 | the patient and its visits go, the active id is cleared when it was this patient, and the invariant is kept |
| PatientContext.PatientStore.SetActivePatient | src/context/PatientContext.jsx:112-121 | the active id is set and a non-empty id is marked as seen now |
| PatientContext.PatientStore.AddVisit | src/context/PatientContext.jsx:124-145 | the visit is appended, a known patient's counter goes one up and it is marked as seen, the id is returned, and the counters still match the visits |
| PatientContext.CountsAfterAddVisit | src/context/PatientContext.jsx:133-142 | appending a visit with a new id and raising its patient's counter keeps ids unique and every counter equal to the number of that patient's visits |
| PatientContext.PatientStore.DeleteVisit | src/context/PatientContext.jsx:157-170 | a known visit is removed and its patient's positive counter lowered by one; an unknown id changes nothing; the invariant is kept |
| PatientContext.CountsAfterDeleteVisit | src/context/PatientContext.jsx:157-170 | removing a visit and lowering its patient's counter keeps ids unique and the counters matching the visits |
| PatientContext.PatientVisits | src/context/PatientContext.jsx:173-177 | that patient's visits, newest first, a permutation of the filtered list; visits of the same date keep their stored order |
| PatientContext.PatientVisitsMembers | src/context/PatientContext.jsx:173-177 | exactly the patient's visits are listed |
| PatientContext.SearchFacts | src/context/PatientContext.jsx:180-191 | the search ignores the case of the term; a patient is found when the lower-cased term occurs in their lower-cased first name, surname, fiscal code or email, or in the phone as stored, and for a non-empty term only then |
| PatientContext.PatientsByTag | src/context/PatientContext.jsx:194-196 | exactly the patients whose tag list holds the tag |
| PatientContext.AttentionFacts | src/context/PatientContext.jsx:204-212 | a patient is listed exactly when the attention test holds for them; for a past visit the attention test agrees with the last-visit check; a shorter threshold lists everyone a longer one does; patients never seen are always listed |
| PatientContext.PatientStore.UpdatePatientMeasurementCount | src/context/PatientContext.jsx:199-201 | the patient's measurement count is set and the invariant kept |
| ParameterManager.FirstNumber | src/components/ParameterManager.jsx:87 | no match exactly when the formula has no digit or dot; otherwise a non-empty leftmost maximal run of digits and dots |
| ParameterManager.FirstRunUnique | src/components/ParameterManager.jsx:87 | the leftmost maximal run is unique |
| ParameterManager.ParseFormula | src/components/ParameterManager.jsx:87 | the option read back from a formula is never empty ('1.5' without a match) |
| ParameterManager.ParseBuiltFormula | src/components/ParameterManager.jsx:67-87 | building `mean ± x*sd` from a run x of digits and dots and reading it back gives x |
| ParameterManager.OptionsRoundTrip | src/components/ParameterManager.jsx:226-228 | every offered option reads back as itself |
| ParameterManager.OptionsMultiplier | src/components/ParameterManager.jsx:226-228 | the store's multiplier for the formula built from each option is that option's value: 1, 1.5, 2 |
| ParameterManager.UnitValues | src/components/ParameterManager.jsx:62 | the available units are the values of the category's unit list, in order |
| ParameterManager.ParsedRange | src/components/ParameterManager.jsx:63-66 | each bound is the parse of its own text, NaN as an absent bound; the range is numeric exactly when both parse |
| ParameterManager.Submitted | src/components/ParameterManager.jsx:56-69 | the submitted parameter carries the form's name, unit and category, the formula built from the option, the colour drawn, and only units the category offers |
| ParameterManager.EditForm | src/components/ParameterManager.jsx:80-91 | no form when the parameter has no range object (the source throws); otherwise its name and unit, its category or 'generic', both bounds printed ("NaN" for a NaN bound), and the parsed formula, never empty |
| ParameterManager.EditKeepsRange | src/components/ParameterManager.jsx:63-86 | when the printed stored bounds parse back to themselves, and "NaN" parses to NaN where a bound is missing, editing and submitting again keeps the standard range |
| ParameterManager.EditKeepsFormula | src/components/ParameterManager.jsx:67-87 | editing a parameter saved from an offered option and submitting again keeps its formula and its multiplier |
| ParameterManager.ParameterForm.constructor | src/components/ParameterManager.jsx:8-17 | the form starts blank, closed, editing nothing |
| ParameterManager.ParameterForm.ResetForm | src/components/ParameterManager.jsx:19-30 | the form is blank, closed, editing nothing |
| ParameterManager.ParameterForm.HandleNameChange | src/components/ParameterManager.jsx:32-42 | the name is set, the category is detected from it and the unit is that category's default, which it offers |
| ParameterManager.ParameterForm.HandleCategoryChange | src/components/ParameterManager.jsx:44-51 | the category is set and the unit reset to its default, which it offers |
| ParameterManager.ParameterForm.StartEdit | src/components/ParameterManager.jsx:80-91 | the form holds the parameter, opened, editing its id; with no range object nothing changes |
| ParameterManager.ParameterForm.HandleSubmit | src/components/ParameterManager.jsx:53-78 | with an edited id the parameter is updated, else a new one is added; the measurements are untouched and the form reset |
| PatientForm.ToggleTagMembership | src/components/PatientForm.jsx:68-75 | toggling flips the tag's membership and no other's; an absent tag is appended at the end |
| PatientForm.ToggleTagTwice | src/components/PatientForm.jsx:68-75 | toggling twice restores membership, and the list itself when the tag was absent |
| PatientForm.AutoFillFills | src/components/PatientForm.jsx:45-56 | auto-fill on a valid code sets the sex to the code's, 'M' or 'F', fills the birth date and changes no other field |
| PatientForm.ValidationKeys | src/components/PatientForm.jsx:88-108 | after the five checks each field has a message exactly when it fails, with that field's message, and no other key |
| PatientForm.ValidationEmpty | src/components/PatientForm.jsx:109-110 | the map of messages is empty exactly when the data passes every check |
| PatientForm.PatientFormState.constructor | src/components/PatientForm.jsx:12-33 | the form starts from the edited patient's data or blank, with no errors and no auto-fill offer |
| PatientForm.PatientFormState.Validate | src/components/PatientForm.jsx:88-111 | one message per failing field, with the right text, and true exactly when there is none and the data is acceptable |
| PatientForm.PatientFormState.HandleCFChange | src/components/PatientForm.jsx:58-66 | the code is stored formatted and its error cleared |
| PatientForm.PatientFormState.HandleTagToggle | src/components/PatientForm.jsx:68-75 | the tag list is toggled and the tag's membership flipped |
| PatientForm.PatientFormState.CheckAutoFill | src/components/PatientForm.jsx:36-43 | the offer is raised for a valid 16-character code with sex or birth date missing, and otherwise left alone |
| PatientForm.PatientFormState.HandleAutoFill | src/components/PatientForm.jsx:45-56 | the form is auto-filled and the offer withdrawn |
| PatientForm.PatientFormState.HandleSubmit | src/components/PatientForm.jsx:113-125 | the error map holds exactly the failing fields' messages and is empty exactly on acceptable data; invalid data saves nothing and leaves the store alone; otherwise the edited patient is updated or a new one added under the fresh id, that id is returned, and the store invariant is kept |
| StatusOverview.MeasurementStatus | src/components/StatusOverview.jsx:26-52 | optimal exactly when the value is in both the standard and the personal range, warning exactly when in one of them, critical exactly when in neither |
| StatusOverview.MissingRanges | src/components/StatusOverview.jsx:29-47 | without a personal range no value is optimal and a warning means being in the standard range; without either range every value is critical |
| StatusOverview.Latest | src/components/StatusOverview.jsx:66-69 | at most ten records, newest first; of each date they are the first records stored, in stored order |
| StatusOverview.LatestFacts | src/components/StatusOverview.jsx:14-16 | every listed record belongs to the active patient and the parameter; a matching record is listed unless ten are listed and it is no newer than the tenth |
| StatusOverview.ParameterMeasurements | src/components/StatusOverview.jsx:62-64 | an empty list when no parameter has the selected name |
| StatusOverview.ParameterMeasurementsFacts | src/components/StatusOverview.jsx:62-77 | otherwise one item per latest record, in order, pairing it with the parameter and its status against the parameter's standard range and the personal range |
| StatusOverview.TallyCounts | src/components/StatusOverview.jsx:84-87 | each count of the fold is its start value plus the number of items of that status |
| StatusOverview.TallyTotal | src/components/StatusOverview.jsx:84-87 | the fold adds exactly the number of items to the total |
| StatusOverview.StatusCountsOf | src/components/StatusOverview.jsx:84-87 | started from zeros, the counts are the numbers of optimal, warning and critical items and add up to the length of the list |
| CalendarView.CalendarStatus | src/components/ParameterCalendarView.jsx:26-48 | "Ottimale" exactly when in both ranges, "Attenzione" exactly when in one, "Critico" exactly when in neither |
| CalendarView.ParameterRecords | src/components/ParameterCalendarView.jsx:15-20 | the records come oldest first; records of the same date keep their stored order |
| CalendarView.ParameterRecordsMembers | src/components/ParameterCalendarView.jsx:15-20 | the records are exactly those of the parameter and the active patient |
| CalendarView.MonthRecordsMembers | src/components/ParameterCalendarView.jsx:52-60 | the month's records are exactly the patient's records of the parameter dated in the shown year and month |
| CalendarView.MonthGrid | src/components/ParameterCalendarView.jsx:63-84 | as many empty cells as the weekday of the first day, then the days 1 to the month's length in order |
| CalendarView.GridCells | src/components/ParameterCalendarView.jsx:63-84 | a cell is empty exactly when it precedes the first day, and otherwise holds its position's day, within the month |
| CalendarView.MeasurementForDay | src/components/ParameterCalendarView.jsx:87-95 | an empty cell shows nothing; a shown record is one of the list, dated that day |
| CalendarView.DayShowsFirst | src/components/ParameterCalendarView.jsx:87-95 | a day shows a record exactly when a record of the patient's parameter is dated that day, and then the first in date order, which is the first stored record of that day |
| Chart.ChartData | src/components/Chart.jsx:33-46 | one point per record of ParameterRecords, in that order (by date, same-day records in stored order), carrying its date, value, id, flag and notes |
| Chart.ChartDataFacts | src/components/Chart.jsx:33-46 | the points ascend by date, each comes from a record of the patient's parameter, and there is one per such record |
| Chart.ExtentBounds | src/components/Chart.jsx:51-63 | the extremes bound every value and every shown range bound |
| Chart.YAxisDomain | src/components/Chart.jsx:48-66 | [0, 100] without points; a NaN domain exactly when there are points and a shown range has a NaN bound; the lower end is never negative |
| Chart.YAxisDomainFacts | src/components/Chart.jsx:64-66 | with numeric shown bounds, the upper end is the highest extreme plus 15% of the spread; for a non-negative lowest extreme the domain holds every value and every shown range |
| Chart.NonNegativeExtent | src/components/Chart.jsx:51-63 | non-negative values and shown bounds give a non-negative lowest extreme |
| Analytics.TrendOf | src/pages/Analytics.jsx:26-31 | 'down' exactly when the latest value falls more than 5% of the mean below the earlier mean; 'up' exactly when it rises more than that and is not 'down'; 'stable' otherwise |
| Analytics.TrendTests | src/pages/Analytics.jsx:26-31 | for a non-negative mean 'up' is exactly the first test; for a negative mean a difference within the threshold is reported as 'down' |
| Analytics.IncludedRecords | src/pages/Analytics.jsx:9-11 | the included records come oldest first; records of the same date keep their stored order |
| Analytics.GetParameterStats | src/pages/Analytics.jsx:8-42 | no statistics exactly when no record is included; what the statistics hold is stated by ParameterStatsFacts and TrendAgainstEarlier |
| Analytics.IncludedRecordsMembers | src/pages/Analytics.jsx:9-11 | the list holds exactly the records of the parameter whose flag is true, of every patient |
| Analytics.ParameterStatsFacts | src/pages/Analytics.jsx:13-41 | the count is the number of included records; the mean is their average and lies between the least and greatest value, which bound every included value; the mean is the Mean of the values in date order and the latest value the last of them; the latest date and value are those of an included record no other is later than; with two or more records the trend is TrendOf the last value, the mean of the earlier ones and the overall mean |
| Analytics.TrendAgainstEarlier | src/pages/Analytics.jsx:15-31 | with two or more included records the trend is 'down' exactly when the last value falls more than 5% of the average below the average of the earlier ones, 'stable' exactly within that, and for a non-negative average 'up' exactly above it |
| Analytics.LatestIsLastStored | src/pages/Analytics.jsx:9-21 | the latest value and date are those of the last stored included record of the latest date |
| Analytics.SingleMeasurementTrend | src/pages/Analytics.jsx:22-31 | with one included record the trend is 'stable' for a non-negative value and 'down' for a negative one |

## Left out

- Persistence: the `localStorage` load and save effects of both stores and of the settings page are not modelled, and neither is the JSON export and import through `Blob` and `FileReader`, because they are browser I/O. The medical store starts from the default parameters, as it does with nothing saved.
- Avatar upload in the patient form (`FileReader`) is browser I/O.
- `src/utils/pdfGenerator.js` is not part of this model: it is layout calls into a PDF library.
- Clock and randomness: `Date.now()`, `new Date()` and `Math.random()` become parameters. These are the timestamps, "today", parameter colours and the fresh patient and visit ids. Freshness is a precondition only where the visit-counter invariant needs it. `generatePatientId` and `generateVisitId` themselves are not modelled.
- PatientUtils.CalculateAge: the birth date arrives already parsed as a calendar date. `new Date(birthDate)` is not modelled, so neither is the day shift from reading a UTC-midnight date in local time (west of UTC a birthday counts a day early), nor the NaN age of a string that does not parse, such as the "1985-undefined-15" that a code with an unknown month letter gives.
- Locale and time zone: a measurement date is a `Date(year, month, day)` with month 1 to 12. The calendar's `new Date(m.date)` and `toISOString()`, which read it in local time and UTC (so the day can shift by one), are not modelled. The weekday of the first of the month and the month length are parameters of `CalendarView.MonthGrid`.
- Rendering is not modelled: captions, colours, icons, the chart's day-and-month label, routing, and the app shell and pages that only delegate (`App.js`, `Header.jsx`, `Dashboard.jsx`, `Patients.jsx`, `Settings.jsx`, `DataManager.jsx`, `InfoTooltip.jsx`, `MeasurementList.jsx`, `MeasurementForm.jsx`).
- React specifics are not modelled: state batching, effect ordering, `window.confirm`, callbacks such as `onParameterChange` and `onSuccess` (the submitted id is returned instead), and the selected-parameter sync effect.
- `updateVisit` and `formatValueWithUnit` are outside the modelled operations. The first is not used by the modelled rules. The second only prints a value with `toFixed`.
- Floating point: values are exact reals, so the conversion round trip holds exactly. Signed zero and rounding error are not modelled.
- `Math.sqrt`, the Gaussian density, `Math.log` and `toFixed` are uninterpreted functions. Only the facts in `Numerics.Lawful` are known about them. EM convergence, and whether AIC recovers the true number of clusters, are not claimed.
- `parseFloat` / `Number` on form text and number printing are functions passed in to the parameter form. `addMeasurement`'s `parseFloat(measurement.value)` is taken as the identity: `MedicalContext.NewMeasurement` receives the value as a number, as the measurement form passes it. Only `parseInt` (codice fiscale fields) and the `[\d.]+` formula match are modelled.
- Case mapping: `toUpperCase` / `toLowerCase` are modelled on ASCII letters only.
- The unit table lookup ignores JavaScript's inherited object keys (such as `constructor`), which the source would find on any object.
- Sorting: `Array.prototype.sort` with a numeric or date comparator is modelled as an insertion sort; like the engine's sort it is stable (`Sequences.SortAscendingStable`, `Sequences.SortDescendingStable`), but the engine's algorithm is not modelled.
- Errors cleared by setting a field's message to `null` are modelled as removing the key from the error map.
- GmmStatistics.StdQuirk: the reported std computed from the unscaled cv is reproduced as written (std = |sd| / 100), not corrected.
- GmmStatistics.Em: the EM and k-means loops are described by functions with a fuel argument equal to the iteration bound (100 and 50), which is exactly the source's bound; nothing is claimed about convergence.
- PatientContext.PatientStore.UpdatePatient: the visit-counter invariant is shown to be kept only for patches that do not set `totalVisits`; a patch that does can break it, as in the source.
- PatientContext.PatientStore.AddPatient: the invariant is kept under the precondition that the new id is fresh, which the random generator makes likely but does not guarantee.
- Analytics.GetParameterStats: the mean is left unrounded; `toFixed(2)` is display formatting.
- StatusOverview.ShownFor: with no active patient the source keeps records that have no `patientId` property at all (`undefined === undefined`); the model has no separate "missing" state, treats such a record like one with a null `patientId`, and shows nothing.
- GmmStatistics.Candidates: the `try`/`catch` around each candidate fit, which would record a null candidate, is not modelled; on numeric input nothing in the fit throws, because every reduction is over a non-empty list or has an initial value.
