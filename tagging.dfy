/**
 * Tags and search (enhanced_features.py:346-399, run_bot.py:144): how a tag is
 * normalised before it is stored, which task_tags rows the tagging loop writes,
 * the `#word` tags read off a task's text, and the LIKE search over content,
 * category and tags.
 */
module Tagging {
  import opened Text
  import opened Sequences
  import opened Schema

  // ---------------------------------------------------------------------------
  // tag.strip().lower()

  /**
   * A stored tag: the input without surrounding whitespace and with ASCII
   * capitals lowered; it is empty exactly when the input was all whitespace.
   */
  function NormalizeTag(tag: string): (r: string)
    ensures |r| <= |tag|
    ensures r == [] || (!IsSpace(r[0]) && !IsSpace(r[|r| - 1]))
    ensures forall i :: 0 <= i < |r| ==> !IsAsciiUpper(r[i])
    ensures r == [] <==> forall i :: 0 <= i < |tag| ==> IsSpace(tag[i])
  {
    LoweredStripEnds(tag);
    LoweredStripEmpty(tag);
    AsciiLower(Strip(tag))
  }

  /** Stripping then lowering leaves no whitespace at either end. */
  lemma LoweredStripEnds(tag: string)
    ensures var r := AsciiLower(Strip(tag));
      |r| <= |tag| && (r == [] || (!IsSpace(r[0]) && !IsSpace(r[|r| - 1])))
  {
    var s := Strip(tag);
    StripEnds(tag);
    if s != [] {
      LowerCharSpace(s[0]);
      LowerCharSpace(s[|s| - 1]);
    }
  }

  /** Stripping then lowering leaves nothing exactly when the input is all whitespace. */
  lemma LoweredStripEmpty(tag: string)
    ensures AsciiLower(Strip(tag)) == [] <==> forall i :: 0 <= i < |tag| ==> IsSpace(tag[i])
  {
    StripEmpty(tag);
  }

  /** Normalising a stored tag changes nothing. */
  lemma NormalizeTagIdempotent(tag: string)
    ensures NormalizeTag(NormalizeTag(tag)) == NormalizeTag(tag)
  {
    StripLowerIdempotent(tag);
  }

  // ---------------------------------------------------------------------------
  // The tagging loop of add_task_with_tags (enhanced_features.py:359-366)

  /** One pass of the loop: skip an empty tag, else INSERT OR IGNORE its normal form. */
  function TagStep(rows: seq<TaskTag>, taskId: int, tag: string): seq<TaskTag>
  {
    var name := NormalizeTag(tag);
    if name == [] || HasTag(rows, taskId, name) then rows else rows + [TaskTag(taskId, name)]
  }

  /** The task_tags rows after the loop has gone over `tags`. */
  function TagRows(rows: seq<TaskTag>, taskId: int, tags: seq<string>): seq<TaskTag>
  {
    if tags == [] then rows else TagStep(TagRows(rows, taskId, tags[..|tags| - 1]), taskId, tags[|tags| - 1])
  }

  /** The rows already there are kept, in place. */
  predicate KeepsTags(rows: seq<TaskTag>, r: seq<TaskTag>)
  {
    |rows| <= |r| && r[..|rows|] == rows
  }

  lemma KeepsHasTag(rows: seq<TaskTag>, r: seq<TaskTag>, taskId: int, name: string)
    requires KeepsTags(rows, r) && HasTag(rows, taskId, name)
    ensures HasTag(r, taskId, name)
  {
    var i :| 0 <= i < |rows| && rows[i].taskId == taskId && rows[i].tagName == name;
    assert r[i] == r[..|rows|][i];
  }

  /** A new row, if any, is the non-empty normal form of the tag; and that form is stored afterwards. */
  lemma TagStepSpec(rows: seq<TaskTag>, taskId: int, tag: string)
    ensures var r := TagStep(rows, taskId, tag);
      && KeepsTags(rows, r)
      && (forall i :: |rows| <= i < |r| ==> r[i] == TaskTag(taskId, NormalizeTag(tag)) && NormalizeTag(tag) != [])
      && (NormalizeTag(tag) != [] ==> HasTag(r, taskId, NormalizeTag(tag)))
  {
    var r := TagStep(rows, taskId, tag);
    if NormalizeTag(tag) != [] && !HasTag(rows, taskId, NormalizeTag(tag)) {
      assert r[|rows|] == TaskTag(taskId, NormalizeTag(tag));
    }
  }

  /** INSERT OR IGNORE keeps UNIQUE(task_id, tag_name). */
  lemma TagStepWellFormed(rows: seq<TaskTag>, lastId: nat, taskId: int, tag: string)
    requires TagsWellFormed(rows, lastId) && taskId <= lastId
    ensures TagsWellFormed(TagStep(rows, taskId, tag), lastId)
  {
    var name := NormalizeTag(tag);
    if name != [] && !HasTag(rows, taskId, name) {
      AppendTagWellFormed(rows, lastId, TaskTag(taskId, name));
    }
  }

  /** Appending a pair no row holds yet, for a handed-out id, keeps the table well formed. */
  lemma AppendTagWellFormed(rows: seq<TaskTag>, lastId: nat, t: TaskTag)
    requires TagsWellFormed(rows, lastId) && t.taskId <= lastId
    requires !HasTag(rows, t.taskId, t.tagName)
    ensures TagsWellFormed(rows + [t], lastId)
  {
    var r := rows + [t];
    forall i, j | 0 <= i < j < |r| ensures r[i].taskId != r[j].taskId || r[i].tagName != r[j].tagName {
      assert r[i] == rows[i];
      if j < |rows| {
        assert r[j] == rows[j];
      }
    }
  }

  /**
   * The loop keeps the rows already there and appends rows for `taskId` only,
   * each holding the non-empty normalised form of some given tag, with no pair
   * of rows repeated.
   */
  lemma {:induction false} TagRowsSpec(rows: seq<TaskTag>, lastId: nat, taskId: int, tags: seq<string>)
    requires TagsWellFormed(rows, lastId) && taskId <= lastId
    ensures var r := TagRows(rows, taskId, tags);
      && KeepsTags(rows, r)
      && TagsWellFormed(r, lastId)
      && (forall i :: |rows| <= i < |r| ==>
            (r[i].taskId == taskId && r[i].tagName != [] && exists k :: 0 <= k < |tags| && r[i].tagName == NormalizeTag(tags[k])))
  {
    if tags != [] {
      var init := tags[..|tags| - 1];
      var last := tags[|tags| - 1];
      TagRowsSpec(rows, lastId, taskId, init);
      var before := TagRows(rows, taskId, init);
      var r := TagRows(rows, taskId, tags);
      TagStepSpec(before, taskId, last);
      TagStepWellFormed(before, lastId, taskId, last);
      assert r[..|rows|] == before[..|rows|];
      forall i | |rows| <= i < |r|
        ensures r[i].taskId == taskId && r[i].tagName != [] && exists k :: 0 <= k < |tags| && r[i].tagName == NormalizeTag(tags[k])
      {
        if i < |before| {
          assert r[i] == before[i];
          var k :| 0 <= k < |init| && before[i].tagName == NormalizeTag(init[k]);
          assert tags[k] == init[k];
        } else {
          assert r[i].tagName == NormalizeTag(tags[|tags| - 1]);
        }
      }
    }
  }

  /** Every tag that is not all whitespace ends up stored for the task. */
  lemma TagRowsCover(rows: seq<TaskTag>, taskId: int, tags: seq<string>)
    ensures var r := TagRows(rows, taskId, tags);
      forall k :: 0 <= k < |tags| && NormalizeTag(tags[k]) != [] ==> HasTag(r, taskId, NormalizeTag(tags[k]))
  {
    forall k | 0 <= k < |tags| && NormalizeTag(tags[k]) != [] ensures HasTag(TagRows(rows, taskId, tags), taskId, NormalizeTag(tags[k])) {
      TagRowsCoverAt(rows, taskId, tags, k);
    }
  }

  /** The k-th tag, when it is not all whitespace, is stored once the loop has passed it. */
  lemma {:induction false} TagRowsCoverAt(rows: seq<TaskTag>, taskId: int, tags: seq<string>, k: nat)
    requires k < |tags| && NormalizeTag(tags[k]) != []
    ensures HasTag(TagRows(rows, taskId, tags), taskId, NormalizeTag(tags[k]))
    decreases |tags|
  {
    var init := tags[..|tags| - 1];
    var last := tags[|tags| - 1];
    var before := TagRows(rows, taskId, init);
    var r := TagRows(rows, taskId, tags);
    assert r == TagStep(before, taskId, last);
    if k < |init| {
      assert init[k] == tags[k];
      TagRowsCoverAt(rows, taskId, init, k);
      TagStepKeeps(before, taskId, last);
      KeepsHasTag(before, r, taskId, NormalizeTag(init[k]));
    } else {
      assert k == |tags| - 1;
      TagStepStores(before, taskId, last);
    }
  }

  /** A step keeps the rows already there. */
  lemma TagStepKeeps(rows: seq<TaskTag>, taskId: int, tag: string)
    ensures KeepsTags(rows, TagStep(rows, taskId, tag))
  {
    TagStepSpec(rows, taskId, tag);
  }

  /** After a step the tag's non-empty normal form is stored. */
  lemma TagStepStores(rows: seq<TaskTag>, taskId: int, tag: string)
    requires NormalizeTag(tag) != []
    ensures HasTag(TagStep(rows, taskId, tag), taskId, NormalizeTag(tag))
  {
    TagStepSpec(rows, taskId, tag);
  }

  /**
   * For a task id no row names yet (a fresh AUTOINCREMENT id), the names stored
   * for it are exactly the non-empty normalised tags, each once.
   */
  lemma FreshTaskTags(rows: seq<TaskTag>, lastId: nat, taskId: int, tags: seq<string>)
    requires TagsWellFormed(rows, lastId) && taskId <= lastId
    requires forall i :: 0 <= i < |rows| ==> rows[i].taskId != taskId
    ensures var r := TagRows(rows, taskId, tags);
      forall name :: HasTag(r, taskId, name) <==> name != [] && exists k :: 0 <= k < |tags| && name == NormalizeTag(tags[k])
  {
    TagRowsSpec(rows, lastId, taskId, tags);
    TagRowsCover(rows, taskId, tags);
    var r := TagRows(rows, taskId, tags);
    forall i | 0 <= i < |rows| ensures r[i].taskId != taskId {
      assert r[i] == r[..|rows|][i];
    }
    forall name | HasTag(r, taskId, name)
      ensures name != [] && exists k :: 0 <= k < |tags| && name == NormalizeTag(tags[k])
    {
      var i :| 0 <= i < |r| && r[i].taskId == taskId && r[i].tagName == name;
    }
    forall name | name != [] && exists k :: 0 <= k < |tags| && name == NormalizeTag(tags[k])
      ensures HasTag(r, taskId, name)
    {
      var k :| 0 <= k < |tags| && name == NormalizeTag(tags[k]);
    }
  }

  // ---------------------------------------------------------------------------
  // re.findall(r'#(\w+)', content) (run_bot.py:144)

  /** The characters `\w` matches: ASCII letters, digits and '_', and every non-ASCII character that is not whitespace. */
  predicate IsWordChar(c: char)
  {
    ('a' <= c <= 'z') || ('A' <= c <= 'Z') || IsDigit(c) || c == '_' || (c as int >= 128 && !IsSpace(c))
  }

  /** The longest run of word characters that `s` starts with. */
  function WordPrefix(s: string): (w: string)
    ensures |w| <= |s| && w == s[..|w|]
    ensures forall i :: 0 <= i < |w| ==> IsWordChar(w[i])
    ensures |w| == |s| || !IsWordChar(s[|w|])
  {
    if s != [] && IsWordChar(s[0]) then [s[0]] + WordPrefix(s[1..]) else []
  }

  /**
   * The words after a '#', scanning left to right; a match resumes after the
   * word it took, as findall does.
   */
  function HashTags(s: string): (tags: seq<string>)
    ensures forall i :: 0 <= i < |tags| ==> tags[i] != [] && forall j :: 0 <= j < |tags[i]| ==> IsWordChar(tags[i][j])
    decreases |s|
  {
    if |s| < 2 then []
    else if s[0] == '#' && IsWordChar(s[1]) then
      var w := WordPrefix(s[1..]);
      [w] + HashTags(s[1 + |w|..])
    else HashTags(s[1..])
  }

  lemma {:induction false} ContainsInSuffix(s: string, k: nat, sub: string)
    requires k <= |s| && Contains(s[k..], sub)
    ensures Contains(s, sub)
  {
    if k > 0 {
      assert s[1..][k - 1..] == s[k..];
      ContainsInSuffix(s[1..], k - 1, sub);
    }
  }

  /** Every tag found stands in the text right after a '#'. */
  lemma {:induction false} HashTagsOccur(s: string)
    ensures forall i :: 0 <= i < |HashTags(s)| ==> Contains(s, ['#'] + HashTags(s)[i])
    decreases |s|
  {
    if |s| >= 2 {
      if s[0] == '#' && IsWordChar(s[1]) {
        var w := WordPrefix(s[1..]);
        var rest := s[1 + |w|..];
        HashTagsOccur(rest);
        assert s[0..1 + |w|] == ['#'] + w;
        ContainsAt(s, ['#'] + w, 0);
        forall i | 0 <= i < |HashTags(rest)| ensures Contains(s, ['#'] + HashTags(rest)[i]) {
          ContainsInSuffix(s, 1 + |w|, ['#'] + HashTags(rest)[i]);
        }
      } else {
        HashTagsOccur(s[1..]);
        forall i | 0 <= i < |HashTags(s[1..])| ensures Contains(s, ['#'] + HashTags(s[1..])[i]) {
          ContainsInSuffix(s, 1, ['#'] + HashTags(s[1..])[i]);
        }
      }
    }
  }

  /** A '#' directly followed by a word character somewhere in the text. */
  predicate HasHashWord(s: string)
  {
    exists i :: 0 <= i < |s| - 1 && s[i] == '#' && IsWordChar(s[i + 1])
  }

  /** At least one tag is found exactly when some '#' is directly followed by a word character. */
  lemma {:induction false} HashTagsFound(s: string)
    ensures HashTags(s) != [] <==> HasHashWord(s)
    decreases |s|
  {
    if |s| >= 2 {
      if s[0] == '#' && IsWordChar(s[1]) {
        assert 0 <= 0 < |s| - 1 && s[0] == '#' && IsWordChar(s[0 + 1]);
      } else {
        var t := s[1..];
        HashTagsFound(t);
        if HasHashWord(s) {
          var i :| 0 <= i < |s| - 1 && s[i] == '#' && IsWordChar(s[i + 1]);
          assert i != 0;
          assert t[i - 1] == s[i] && t[i] == s[i + 1];
        }
        if HasHashWord(t) {
          var i :| 0 <= i < |t| - 1 && t[i] == '#' && IsWordChar(t[i + 1]);
          assert s[i + 1] == t[i] && s[i + 2] == t[i + 1];
        }
      }
    } else if HasHashWord(s) {
      assert false;
    }
  }

  // ---------------------------------------------------------------------------
  // search_tasks (enhanced_features.py:377-399)

  /** Some tag row of the task contains the query. */
  predicate TagMatches(tags: seq<TaskTag>, id: int, q: string)
  {
    exists i :: 0 <= i < |tags| && tags[i].taskId == id && LikeContains(tags[i].tagName, q)
  }

  predicate SearchHit(t: Task, tags: seq<TaskTag>, user: int, q: string)
  {
    && t.owner == user
    && t.status == Open
    && (LikeContains(t.content, q) || LikeContains(t.category, q) || TagMatches(tags, t.id, q))
  }

  function SearchPred(tags: seq<TaskTag>, user: int, q: string): Task -> bool
  {
    (t: Task) => SearchHit(t, tags, user, q)
  }

  /**
   * SELECT DISTINCT over tasks LEFT JOIN task_tags: one row per matching task
   * however many of its tags match, ORDER BY created_at DESC.
   */
  function SearchTasks(tasks: seq<Task>, tags: seq<TaskTag>, user: int, q: string): seq<Task>
  {
    Reverse(Filter(tasks, SearchPred(tags, user, q)))
  }

  /**
   * The results are exactly the user's open tasks whose content, category or
   * one of whose tags contains the query, newest first, each once.
   */
  lemma SearchSpec(tasks: seq<Task>, lastId: nat, tags: seq<TaskTag>, user: int, q: string)
    requires TasksWellFormed(tasks, lastId)
    ensures var r := SearchTasks(tasks, tags, user, q);
      && (forall t :: t in r <==> t in tasks && SearchHit(t, tags, user, q))
      && StrictlyDecreasing(r, TaskId)
  {
    var rows := Filter(tasks, SearchPred(tags, user, q));
    FilterIncreasing(tasks, SearchPred(tags, user, q), TaskId);
    ReverseDecreasing(rows, TaskId);
    ReverseMultiset(rows);
    var r := SearchTasks(tasks, tags, user, q);
    forall t ensures t in r <==> t in rows {
      assert t in r <==> t in multiset(r);
    }
  }

  lemma ContainsEmpty(s: string)
    ensures Contains(s, "")
  {
    assert StartsWith(s, "");
  }

  /** An empty query (LIKE '%%') lists every open task of the user, newest first. */
  lemma SearchEmptyQuery(tasks: seq<Task>, tags: seq<TaskTag>, user: int)
    ensures SearchTasks(tasks, tags, user, "") == Reverse(Filter(tasks, (t: Task) => t.owner == user && t.status == Open))
  {
    forall t: Task ensures SearchPred(tags, user, "")(t) == (t.owner == user && t.status == Open) {
      ContainsEmpty(AsciiLower(t.content));
    }
    FilterAgree(tasks, SearchPred(tags, user, ""), (t: Task) => t.owner == user && t.status == Open);
  }

  /**
   * A stored tag finds its task: a query that lowers to one of the task's tags
   * hits it, whatever the case of the query's letters.
   */
  lemma SearchFindsTag(t: Task, tags: seq<TaskTag>, user: int, q: string)
    requires t.owner == user && t.status == Open && HasTag(tags, t.id, AsciiLower(q))
    ensures SearchHit(t, tags, user, q)
  {
    var i :| 0 <= i < |tags| && tags[i].taskId == t.id && tags[i].tagName == AsciiLower(q);
    AsciiLowerIdempotent(q);
    assert StartsWith(AsciiLower(tags[i].tagName), AsciiLower(q));
  }
}
