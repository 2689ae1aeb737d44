/** The scene checker (node8/services/scenes.py): a scene that loads is
    checked by the SC001 rule; one that does not load yields no error. */
module Scenes {
  import opened Wrappers
  import opened Seqs
  import opened CoreConfig
  import opened SceneTrees
  import opened Models
  import opened Visitors

  /** A scene file of the directory: its path and the tree it loads to, if any. */
  datatype Scene = Scene(path: string, tree: Option<SceneTree>)

  /** What `_check_scene` returns for a scene. */
  function SceneFileErrors(scene: Scene, config: Config): seq<SceneError> {
    match scene.tree
    case None => []
    case Some(tree) => SceneErrors(scene.path, tree, config)
  }

  /** `_check_scene` once the scene is loaded: no tree, no errors; otherwise
      exactly the SC001 errors of the tree. */
  method CheckScene(path: string, tree: Option<SceneTree>, config: Option<Config>) returns (errors: seq<SceneError>)
    ensures tree.None? ==> errors == []
    ensures tree.Some? ==> errors == SceneErrors(path, tree.value, ResolveConfig(config))
  {
    var cfg := ResolveConfig(config);
    errors := [];
    if tree.None? {
      return errors;
    }
    var found := SceneVisitor.Check(path, tree.value, Some(cfg));
    errors := errors + found;
  }

  /** What `_check_scene` returns, as a function of the scene. */
  function SceneFileErrorsUnder(config: Config): Scene -> seq<SceneError> {
    scene => SceneFileErrors(scene, config)
  }

  /** The errors of the scenes, scene after scene. */
  function DirectorySceneErrors(scenes: seq<Scene>, config: Config): seq<SceneError> {
    FlatMap(scenes, SceneFileErrorsUnder(config))
  }

  /** `check` over the scene files the directory walk found. */
  method DirectoryCheck(scenes: seq<Scene>, config: Option<Config>) returns (errors: seq<SceneError>)
    ensures errors == DirectorySceneErrors(scenes, ResolveConfig(config))
  {
    var cfg := ResolveConfig(config);
    errors := [];
    for i := 0 to |scenes|
      invariant errors == DirectorySceneErrors(scenes[..i], cfg)
    {
      var found := CheckScene(scenes[i].path, scenes[i].tree, Some(cfg));
      assert scenes[..i + 1][..i] == scenes[..i];
      errors := errors + found;
    }
    assert scenes[..|scenes|] == scenes;
  }

  /** The scene file had a root node. */
  predicate Loaded(scene: Scene) {
    scene.tree.Some?
  }

  /** Checking two runs of scenes is checking each run in turn. */
  lemma DirectorySceneErrorsAppend(a: seq<Scene>, b: seq<Scene>, config: Config)
    ensures DirectorySceneErrors(a + b, config) == DirectorySceneErrors(a, config) + DirectorySceneErrors(b, config)
  {
    FlatMapAppend(a, b, SceneFileErrorsUnder(config));
  }

  /** Scenes that do not load contribute nothing: the directory's errors are
      those of its loaded scenes alone. */
  lemma UnloadedScenesContributeNothing(scenes: seq<Scene>, config: Config)
    ensures DirectorySceneErrors(scenes, config) == DirectorySceneErrors(Filter(scenes, Loaded), config)
  {
    FlatMapSkipsEmpty(scenes, SceneFileErrorsUnder(config), Loaded);
  }
}
