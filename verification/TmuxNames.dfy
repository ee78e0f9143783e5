/** How tmux finds the session that a target names: the session of that very name, or else the
    only one whose name begins with it. */
module TmuxNames {
  import opened Text

  predicate BeginsWith(name: string, target: string) { |target| <= |name| && name[..|target|] == target }

  function Candidates(names: set<string>, target: string): set<string> {
    set name | name in names && BeginsWith(name, target)
  }

  /** The session found, if any; several that begin with the target count as none. */
  ghost function Find(names: set<string>, target: string): Option<string> {
    if target in names then Some(target)
    else if |Candidates(names, target)| == 1 then
      var name :| name in Candidates(names, target);
      Some(name)
    else None
  }

  lemma OnlyOne(candidates: set<string>, name: string)
    requires |candidates| == 1 && name in candidates
    ensures candidates == {name}
  {
    assert |candidates - {name}| == 0;
  }

  /** Exactly when a check or a kill meets another session than the one named: that one is gone,
      and exactly one other session's name begins with its name. */
  lemma FindsAnother(names: set<string>, target: string)
    ensures var found := Find(names, target);
            && (found.Some? && found.value != target <==> target !in names && |Candidates(names, target)| == 1)
            && (found.Some? ==> found.value in names && BeginsWith(found.value, target))
  {
    if target !in names && |Candidates(names, target)| == 1 {
      OnlyOne(Candidates(names, target), Find(names, target).value);
    }
  }

  /** ... so a name is found exactly when it is there, unless it begins exactly one other's. */
  lemma FindsItself(names: set<string>, target: string)
    requires |Candidates(names - {target}, target)| != 1
    ensures Find(names, target) == if target in names then Some(target) else None
  {
    if target !in names {
      assert names - {target} == names;
    }
  }

  /** With "work" gone and "work2" there, "work" is found to be "work2". */
  lemma WorkFindsWork2()
    ensures Find({"work2"}, "work") == Some("work2")
  {
    assert BeginsWith("work2", "work");
    assert Candidates({"work2"}, "work") == {"work2"};
    FindsAnother({"work2"}, "work");
  }
}
