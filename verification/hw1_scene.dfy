/**
 * The wireframe renderer's scene (hw1 scene.h / scene.cpp and the object
 * placement in wireframe.cpp): a camera, a perspective and the list of
 * labelled objects, each a copy carrying its own transformation.
 */
module Hw1Scene {
  import opened Wrappers
  import opened Labels
  import opened Projection
  import opened Viewing
  import opened Hw1Transform
  import opened Hw1Object

  class Scene {
    var cam: Camera
    var persp: Perspective
    var objs: seq<Labeled<Object>>

    /** Scene(): the default camera and perspective and no objects. */
    constructor Default()
      ensures cam == DefaultCamera && persp == Perspective(0.0, 0.0, 0.0, 0.0, 0.0, 0.0) && objs == []
    {
      cam := DefaultCamera;
      persp := Perspective(0.0, 0.0, 0.0, 0.0, 0.0, 0.0);
      objs := [];
    }

    /** Scene(cam, perp): the given camera and perspective and no objects. */
    constructor (c: Camera, p: Perspective)
      ensures cam == c && persp == p && objs == []
    {
      cam := c;
      persp := p;
      objs := [];
    }

    /** add_labeled_object(l_obj): appends exactly one entry at the end. */
    method AddLabeled(l: Labeled<Object>)
      modifies this
      ensures objs == old(objs) + [l]
      ensures cam == old(cam) && persp == old(persp)
    {
      objs := objs + [l];
    }

    /** add_labeled_object(obj, label): the same, with the pair built first. */
    method AddLabeledObject(obj: Object, name: string)
      modifies this
      ensures objs == old(objs) + [Labeled(name, obj)]
      ensures cam == old(cam) && persp == old(persp)
    {
      AddLabeled(Labeled(name, obj));
    }

    /**
     * The transformation block of wireframe.cpp's main loop: a copy of the
     * first parsed object with the label gets the block's transformation
     * and is appended to the scene. When no object has the label the source
     * throws; the model reports false and leaves the scene alone. The parsed
     * objects themselves are never changed.
     */
    method PlaceLabeledObject(untransformed: seq<Labeled<Object>>, name: string, t: Transformation) returns (placed: bool)
      modifies this
      ensures placed <==> FirstWithLabel(untransformed, name).Some?
      ensures !placed ==> objs == old(objs)
      ensures placed ==> |objs| == |old(objs)| + 1 && objs[..|old(objs)|] == old(objs)
      ensures placed ==> var src := untransformed[FirstWithLabel(untransformed, name).value].obj;
        var copy := objs[|objs| - 1];
        copy.name == name && fresh(copy.obj) && copy.obj.vertices == src.vertices &&
        copy.obj.faces == src.faces && copy.obj.transform.ts == t.ts
      ensures cam == old(cam) && persp == old(persp)
    {
      var elem := FindObjectWithLabel(untransformed, name);
      if elem.None? {
        return false;
      }
      var copy := new Object.Copy(elem.value.obj);
      copy.transform := t;
      var placedCopy := new Object.Copy(copy);
      AddLabeled(Labeled(name, placedCopy));
      placed := true;
    }
  }
}
