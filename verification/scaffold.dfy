/**
 The scaffolding and the start-up check agree: a project freshly made by
 `CreateNewProject` has every directory and file `LoadApp` requires, so it
 passes the structure check, and `LoadApp` on it goes on to load the
 configuration.
 */
module Scaffold {
  import opened Errors
  import opened FileSystem
  import Generator
  import Framework

  /** Every required directory is one the scaffold makes, and every
      required file one it generates: a tree with the scaffold's layout has
      everything required. */
  lemma RequiredAreScaffolded(tree: Tree)
    requires forall d :: d in Generator.ProjectDirs ==> d in tree
    requires Generator.ProjectFiles.Keys <= tree.Keys
    ensures forall d :: d in Framework.RequiredDirs ==> d in tree
    ensures forall f :: f in Framework.RequiredFiles ==> f in tree
  {
  }

  /** A project that `CreateNewProject` made without error passes
      `validateProjectStructure`, whatever else cannot be examined. */
  lemma FreshProjectIsValid(appName: string, t: Tree, faults: Generator.Faults, order: seq<string>,
                            unreadable: set<string>)
    requires Generator.IsEnumeration(order, Generator.ProjectFiles.Keys)
    requires Generator.CreateNewProject(appName, t, faults, order).outcome.Pass?
    ensures Framework.ValidateProjectStructure(Generator.CreateNewProject(appName, t, faults, order).tree, unreadable).Pass?
  {
    var tree := Generator.CreateNewProject(appName, t, faults, order).tree;
    RequiredAreScaffolded(tree);
    Framework.ValidWhenPresent(tree, unreadable);
  }

  /** Loading the application in a fresh project gets past the structure
      check: it fails only if the configuration or the database does. */
  lemma FreshProjectLoads(appName: string, t: Tree, faults: Generator.Faults, order: seq<string>,
                          unreadable: set<string>, loaded: Framework.Loaded, open: Framework.Open)
    requires Generator.IsEnumeration(order, Generator.ProjectFiles.Keys)
    requires Generator.CreateNewProject(appName, t, faults, order).outcome.Pass?
    ensures var app := Framework.LoadApp(Generator.CreateNewProject(appName, t, faults, order).tree,
                                         unreadable, loaded, open);
            app.Err? ==> app.error.context != "invalid project structure"
  {
    FreshProjectIsValid(appName, t, faults, order, unreadable);
  }
}
