# Air-quality dashboard: classifier and data pipeline

A Dafny model of the logic of a Streamlit dashboard over the UCI air-quality
sheet (Milan). The dashboard classifies each pollutant reading into a severity
label using a constant table of threshold triples, builds a table of labels
for twelve columns, and drops rows with a missing reading before computing
correlations against the `PT08.S1(CO)` sensor.

- `wrappers.dfy` (`Wrappers`): `Option` and `Result`.
- `thresholds.dfy` (`Thresholds`): the threshold triples and the table of twelve pollutant keys.
- `classifier.dfy` (`Classifier`): the six labels, their display text, the band
  function and `AirQualityStatus`, with a reference definition of the band
  (the number of thresholds a reading exceeds) and monotonicity.
- `frames.dfy` (`Frames`): a sheet as a header over rows of `Option<real>`,
  column selection by name (failing with the absent names), and the
  missing-row filter with its order, count and idempotence lemmas.
- `dashboard.dfy` (`Dashboard`): the required column list, per-column
  classification, the column-by-column construction of the label table and
  the whole pipeline `Analyse`.

A reading is `Option<real>`: `None` stands for every value `pd.isna` accepts.
The classifier only compares readings with constants, so `real` loses nothing.
Labels are a closed datatype; `Text` gives the source's strings, and
`ParseText`/`TextInjective` show that no two labels share a string.

The required list at app.py:52-53 has thirteen names: the twelve classified
ones plus `PT08.S1(CO)`. The classifier has six outcomes.

## Model

| member | source | states |
|---|---|---|
| Thresholds.TableOrdered | app.py:16-29 | every threshold triple of the table is non-decreasing, low <= med <= high |
| Classifier.ParseText | app.py:31-44 | parsing a label's display text gives back that label |
| Classifier.TextInjective | app.py:31-44 | distinct labels are shown as distinct strings |
| Classifier.Band | app.py:36-44 | a present reading under a triple always lands in one of the four bands |
| Classifier.BandIntervals | app.py:37-44 | under an ordered triple, Good iff v <= low, Moderate iff low < v <= med, Unhealthy iff med < v <= high, Very Unhealthy iff v > high |
| Classifier.BandCountsThresholds | app.py:37-44 | under an ordered triple the band's rank equals the number of thresholds the reading strictly exceeds |
| Classifier.AirQualityStatus | app.py:14-44 | No Data iff the reading is missing, for every key; Unknown iff present with a key outside the table; otherwise a band label with the four interval conditions of the key's triple |
| Classifier.StatusCountsThresholds | app.py:16-44 | for a known key, the rank of the label equals the number of the key's thresholds the reading exceeds |
| Classifier.StatusMonotone | app.py:16-44 | for a known key, a larger reading never gets a less severe label |
| Classifier.CarbonMonoxideExamples | app.py:17-44 | 3.0 and 4.5 are Good, 7.0 Moderate, 12.5 Unhealthy, 20.0 Very Unhealthy and a missing reading No Data for `CO(GT)` |
| Frames.Missing | app.py:54 | lists exactly the requested names that the header lacks, in request order |
| Frames.Project | app.py:52-54 | fails iff some requested column is absent, listing exactly the absent names; otherwise has the requested header, the same number of rows, and each selected column equal to the original column of that name |
| Frames.DropMissing | app.py:77 | keeps exactly the rows that have no missing reading, never more rows than given |
| Frames.DropMissingAppend | app.py:77 | filtering two consecutive blocks is filtering each and concatenating, so relative order is kept |
| Frames.DropMissingSubsequence | app.py:77 | the kept rows are a subsequence of the input |
| Frames.DropMissingCount | app.py:77 | each complete row keeps its multiplicity and each incomplete row occurs zero times |
| Frames.DropMissingKeepsComplete | app.py:77 | a table without missing readings is unchanged |
| Frames.DropMissingIdempotent | app.py:77 | filtering twice equals filtering once |
| Dashboard.ColumnLists | app.py:16-58 | thirteen required names ending in `PT08.S1(CO)`, which is not classified; the twelve classified names are exactly the threshold table's keys |
| Dashboard.ClassifyColumn | app.py:59 | the labelled column has the input's length and cell i is the classification of input cell i under the column's key |
| Dashboard.ClassifyColumnKnown | app.py:58-59 | under a known key no cell is Unknown and a cell is No Data exactly where the reading is missing |
| Dashboard.BuildStatus | app.py:57-59 | one label column per classified name in list order, each as long as the data, cell i the classification of data cell i under that column's name, none Unknown |
| Dashboard.Analyse | app.py:52-77 | fails iff a required column is absent, naming exactly the absent ones; otherwise the projected data keeps every required column and all rows, the label table covers every row (also rows with a missing reading), and the correlation rows are the missing-row filter of the data: exactly the complete rows, each with its multiplicity, in their original order |

## Left out

- The Streamlit page: title, uploader, previews, subheaders and layout (app.py:7-11, 48-49, 56, 61, 63-68, 74, 81, 83, 93) are presentation.
- Loading the sheet with `pd.read_excel` (app.py:47) is file I/O; the model starts from an already loaded `Frame`. Cells are numbers or missing; text cells, on which the classifier's comparisons would raise, are not modelled.
- Duplicate header names: `read_excel` renames duplicates, so the model's column lookup takes the first occurrence of a name.
- Histograms with KDE (app.py:69-72) and scatter plots (app.py:85-91) are plotting.
- The Pearson correlation matrix and its descending sort (app.py:78, 81) are floating-point statistics inside pandas; the model stops at the rows handed to them.
- Frames.Project: the error value is the list of absent names, not the exact text of pandas' `KeyError`.
- Re-running the classification over the same data gives the same label table: BuildStatus's ensures fix every cell of the label table, so two runs give the same table; no separate lemma states it.
