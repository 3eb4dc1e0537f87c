# Odin cluster configuration and scheduler — a Dafny model

Odin collects Kubernetes/OKD resources from several clusters on a schedule.
This project models the two pieces of decision logic that start it:

- **Loading the cluster descriptors** (`load_clusters`, cluster_config.py).
  The parsed YAML document is reduced to a list of cluster entries: a
  mapping is replaced by its `clusters` entry, and anything that is not a
  list is a ValueError. Each entry, in order and in place, must name a
  `token_env` variable. The variable's value becomes `token` after
  surrounding whitespace and then surrounding double quotes are stripped.
  `fqdn` is the value of the variable named by `fqdn_env`, or `None`. The
  first entry that fails stops the load with the exception Python raises at
  that point. A missing file gives an empty list.
- **Starting the scheduler** (`start_scheduler` and `renew_token`,
  scheduler/scheduler.py). `SCHEDULER_INTERVAL_HOURS` (default `"48"`) is
  parsed with `int`. A value that is zero, negative or not an integer gives
  an interval of 1 hour, although the warning printed at that point says 48.
  Three jobs are registered in order: token renewal every 24 hours with no
  id, resource collection every interval hours as `resource_collector_job`,
  and metric extraction every 60 minutes as `metric_extraction_job`. Token
  renewal runs `/bin/bash /app/renew_token.sh` only when that file exists.

The YAML document is a `Yaml.Value`. The process environment is a
`map<string, string>`. A missing configuration file is `None`. The file
system seen by `os.path.exists` is the set of existing paths. Each exception
of `load_clusters` is one variant of `ClusterConfig.LoadError`.

Behaviour the code has and the model keeps:

- An entry whose `token_env` names an unset variable fails with an
  AttributeError (`None.strip()`), not with the RuntimeError "Token … not
  found". The RuntimeError is raised only for a set variable whose value
  trims to nothing.
- A truthy `token_env` or `fqdn_env` that is not a string fails with a
  TypeError from the environment lookup.
- An entry that is not a mapping fails with an AttributeError on `.get`.
- A truthy `fqdn_env` naming an unset variable gives `fqdn = None`.
- The loader never checks that an entry has a `name`. A missing name only
  appears in the message of the missing-`token_env` error.

The helpers `Yaml.Truthy`, `Yaml.Get` and `Scheduler.IntervalSetting` stand
for Python truthiness (`if not x`), `dict.get(key)` with its `None` default,
and `os.getenv`. They are used at cluster_config.py:31-39 and
scheduler/scheduler.py:24, and the members below state their consequences.
`Scheduler.ScheduledJobs` is the `JobTable` for the interval resolved from
the environment; `StartScheduler` promises exactly that table.
`Decimal.IsPaddedNumeral` describes the texts `int` accepts: whitespace it
skips, an optional `+` or `-`, one to 4300 digits, and whitespace again.

Files: `wrappers.dfy` (Option, Result), `text.dfy` (`str.strip`),
`yaml_value.dfy` (YAML values, truthiness, `dict.get`), `cluster_config.dfy`,
`decimal.dfy` (`int(text)` and `str(n)`), `scheduler.dfy`.

## Model

| member | source | states |
|---|---|---|
| ClusterConfig.LoadClusters | cluster_config.py:17-44 | A missing file gives an empty list. A document without a cluster list gives InvalidFormat. Otherwise the load succeeds exactly when every entry resolves. The result then has the input's length and order, and entry i is entry i resolved. A failed load returns the error of the first entry that fails, and every earlier entry resolved. |
| ClusterConfig.ClusterList | cluster_config.py:24-28 | A list is kept as it is. A mapping gives its `clusters` list, or `[]` when the key is absent. Every other document, and a mapping whose `clusters` value is not a list, gives InvalidFormat. |
| ClusterConfig.TokenFor | cluster_config.py:31-36 | Each error happens exactly under its condition. MissingTokenEnv (ValueError, carrying `name`) when `token_env` is falsy. EnvNameNotString (TypeError) when it is truthy but not a string. TokenVariableUnset (AttributeError) when it names an unset variable. TokenNotFound (RuntimeError) when the set value cleans to "". On success the token is the cleaned, non-empty value of the variable. |
| ClusterConfig.CleanToken | cluster_config.py:34 | The token is no longer than the raw value. It never starts or ends with `"`. It is empty exactly when the whitespace-stripped value is all double quotes. |
| ClusterConfig.CleanTokenKeepsBareValue | cluster_config.py:34 | A value with no whitespace or `"` at either end is stored unchanged. |
| ClusterConfig.CleanTokenUnquotes | cluster_config.py:34 | For every value v whose ends are not `"`, and any whitespace padding, `pre + '"' + v + '"' + post` is stored as exactly v. The padding and the quotes go, and whitespace inside the quotes stays, because whitespace is stripped before quotes. |
| ClusterConfig.FqdnFor | cluster_config.py:38-42 | `fqdn` is a string exactly when `fqdn_env` is a non-empty string naming a set variable, and then it is that variable's value. It is `None` otherwise. A truthy non-string `fqdn_env` is a TypeError. |
| ClusterConfig.ResolveCluster | cluster_config.py:30-42 | A non-mapping entry is an AttributeError. A resolved entry keeps every original field other than `token` and `fqdn`, and its keys are the original keys plus `token` and `fqdn`. Its token and fqdn are those of TokenFor and FqdnFor. Token errors win over fqdn errors. When the token resolves and the `fqdn_env` lookup fails, the result is FqdnFor's TypeError. |
| Text.Strip | cluster_config.py:34 | `str.strip` is the slice after the leading run of stripped characters. Everything after it is stripped characters. It is empty exactly when every character is stripped. Otherwise neither end is a stripped character. |
| Text.StripIsUniqueTrim | cluster_config.py:34 | Any slice with only stripped characters outside it and none at its ends equals Strip. |
| Text.StripPadded | cluster_config.py:34 | Stripping `pre + w + post` gives w when the padding is all stripped characters and w's ends are not. |
| Decimal.ParseInt | scheduler/scheduler.py:24 | When `int(text)` succeeds, the text contains a digit. Exactly which texts it accepts, and with what value, is stated by ParseAcceptsPaddedNumeral and ParseAcceptsOnlyPaddedNumerals. |
| Decimal.ParseAcceptsPaddedNumeral | scheduler/scheduler.py:24 | Every text of the form skipped whitespace, optional `+` or `-`, one to 4300 digits (leading zeros allowed), skipped whitespace is accepted, and its value is the digits' value, negated after `-`. So `int("+5")` is 5 and `int("007")` is 7. |
| Decimal.ParseAcceptsOnlyPaddedNumerals | scheduler/scheduler.py:24 | Conversely, every text `int` accepts has that form, and the result is that signed value. Text such as `"1 2"`, `"+"` or `"--1"` is therefore a ValueError. |
| Decimal.FormatParseRoundTrip | scheduler/scheduler.py:24 | `int(str(n)) == n` for every integer n with at most 4300 digits. |
| Decimal.ParseIgnoresSurroundingWhitespace | scheduler/scheduler.py:24 | Whitespace that `int` skips does not change what it returns, for a numeral within the digit limit. That whitespace is ASCII tab, newline, vertical tab, form feed, carriage return and space, plus non-ASCII `str.isspace` characters. |
| Decimal.ParseRefusesTooManyDigits | scheduler/scheduler.py:24 | A numeral of more than 4300 digits, leading zeros included, is a ValueError, with or without a `+` or `-` sign and whitespace around it. |
| Decimal.ParseRefusesLeadingSeparator | scheduler/scheduler.py:24 | A text starting with U+001C–U+001F is a ValueError: `int` does not skip these characters, although `str.strip` does. |
| Scheduler.CollectionIntervalHours | scheduler/scheduler.py:23-29 | The interval is always at least 1 hour. When the setting (or "48" when unset) parses to a positive n, in any spelling `int` accepts, such as `+5` or `007`, the interval is n. Otherwise it is the fallback 1. |
| Scheduler.IntervalWhenUnset | scheduler/scheduler.py:24 | With the variable unset the interval is 48. |
| Scheduler.IntervalWhenPositive | scheduler/scheduler.py:24-25 | A positive integer n of at most 4300 digits, with any whitespace `int` skips around it, gives interval n. |
| Scheduler.IntervalWhenSpelledNumeral | scheduler/scheduler.py:23-29 | For any spelling `int` accepts, such as `+5`, `007` or ` -0 `, the interval is the value when positive and 1 otherwise. |
| Scheduler.IntervalWhenNotPositive | scheduler/scheduler.py:25-29 | Zero or a negative integer gives 1, not the 48 of the warning text. |
| Scheduler.IntervalWhenTooManyDigits | scheduler/scheduler.py:24-29 | A setting of more than 4300 digits makes `int` raise ValueError, so the interval falls back to 1. |
| Scheduler.IntervalWhenNotANumber | scheduler/scheduler.py:27-29 | Text with no digit, including "", gives 1. |
| Scheduler.JobTable | scheduler/scheduler.py:21-35 | For any interval of at least one hour: exactly three jobs, each with a positive interval. They run different callables, and no id is used twice. |
| Scheduler.OnlyCollectionDependsOnEnvironment | scheduler/scheduler.py:21-35 | The renewal and metric jobs are the same for every environment. The collection job runs every interval hours. |
| Scheduler.BackgroundScheduler.constructor | scheduler/scheduler.py:19 | A new scheduler holds no jobs and is not running. |
| Scheduler.BackgroundScheduler.AddJob | scheduler/scheduler.py:21 | `add_job` appends the job and changes nothing else. |
| Scheduler.BackgroundScheduler.Start | scheduler/scheduler.py:37 | `start` sets the scheduler running and keeps its jobs. |
| Scheduler.StartScheduler | scheduler/scheduler.py:14-37 | Returns a new, running scheduler. Its jobs are the JobTable for the resolved interval, in order: renewal every 24 hours with no id, collection every interval hours as `resource_collector_job`, and metrics every 60 minutes as `metric_extraction_job`. |
| Scheduler.RenewTokenAction | scheduler/scheduler.py:7-12 | The script runs as `/bin/bash /app/renew_token.sh` exactly when that path exists. Otherwise the action is only a warning naming the path. |

## Left out

- Opening the configuration file and parsing YAML are inputs, not modelled. The configurable path (`CLUSTERS_CONFIG_PATH`, cluster_config.py:5-8) and YAML syntax errors are also left out.
- YAML values are limited to null, booleans, integers, strings, lists and mappings with string keys. Floats, dates and non-string keys are not represented.
- Python dict key order is not modelled. In Python a new `token` or `fqdn` key is added at the end of the entry; an existing one keeps its position and only its value is replaced.
- ClusterConfig.LoadClusters: entries are values, so the model does not capture a YAML alias (`&a` … `*a`) that makes several places of the document one Python dict. cluster_config.py:34-42 updates each entry dict in place. So when an entry dict also appears nested inside an entry, for example as a field value, Python shows the added `token` and `fqdn` at the nested place too, while the model returns the nested value as it was read. Two list positions sharing one dict are the only sharing the model gets right, because resolving an entry twice gives the same fields.
- The import-time `CLUSTERS = load_clusters()` (cluster_config.py:46) is left out. So are printed warnings and the text of exception messages.
- Decimal.ParseInt: only ASCII digits are accepted. Python's `int` also accepts `_` between digits and other Unicode decimal digits.
- Decimal.ParseInt: the 4300-digit limit is the default of Python 3.11 and later. Older interpreters have no limit, and `PYTHONINTMAXSTRDIGITS` or `-X int_max_str_digits` can change it. The model fixes it at 4300.
- Scheduler.StartScheduler: does not model the OverflowError for huge intervals. In the source, `add_job(..., hours=interval_hours)` (scheduler/scheduler.py:31) is outside the `try` of lines 23-29. The scheduling library's interval trigger builds `timedelta(hours=…)` and adds it to the current time. Both steps overflow for intervals of roughly 10^8 hours or more; the exact bound depends on the current date. So `start_scheduler` raises instead of starting, while the model always returns a started scheduler. The bound depends on a clock and on library code that is not part of this model.
- Scheduler.StartScheduler: returning the scheduler is only a way to observe its job table. `start_scheduler` itself returns `None` and keeps the scheduler alive through its background thread.
- The timers, threads and overlap behaviour of APScheduler are not modelled. Neither is the random id it gives a job registered without one (modelled as `None`).
- `subprocess.call` is not modelled: its exit status is ignored by the source. `os.path.exists` is modelled as membership in a set of existing paths.
- The printed messages of `renew_token` and `start_scheduler` are not modelled.
- main.py (application wiring), utils/db.py (the MongoDB client) and the diff test (a third-party library) are not part of this model. The collector, sanitizer and diff code are not part of this model either.
