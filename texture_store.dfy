/**
 * The texture store: a texture is looked up by its name with each fallback
 * extension in turn; a name seen before gives the usage made for it, and a
 * resource found for the first time is decoded and placed either in a
 * texture of its own (2048 pixels or more in either direction) or in the
 * first shelf atlas with room for it, a new 4096 x 4096 atlas being made
 * when none has. A name with no resource under any extension gives the
 * renderer's blank texture.
 *
 * The resource store and the image decoder together are a map from resource
 * name to decoded image.
 */
module TextureStores {
  import opened Wrappers
  import opened Geometry
  import opened Texture
  import opened ShelfAtlas

  const LookupExtensions: seq<string> := ["", ".png", ".jpg", ".bmp"]
  /** An image this wide or this high gets a texture of its own. */
  const LargeSize: int := 2048
  const AtlasSize: int := 4096

  /** A texture of the image's own size, holding the image. */
  datatype LargeTexture = LargeTexture(image: Image, mipLevels: int)

  /** What Get hands out. NullUsage is the null a full new atlas gives back. */
  datatype StoreUsage =
    | BlankTexture
    | WholeTexture(texture: nat)
    | Subtexture(atlas: nat, usage: TextureUsage)
    | NullUsage

  predicate IsLarge(img: Image)
  {
    img.width >= LargeSize || img.height >= LargeSize
  }

  /** The resource name an actual file name is read from. */
  function ResourceName(prefix: string, name: string): string
  {
    prefix + "." + name
  }

  /**
   * The first extension, from the `i`th on, under which the name is cached
   * or has a resource: where Get stops.
   */
  function FirstLookup(filename: string, prefix: string, cache: map<string, StoreUsage>, resources: map<string, Image>, i: nat): (k: Option<nat>)
    requires i <= |LookupExtensions|
    ensures k.Some? ==> i <= k.value < |LookupExtensions|
    ensures k.Some? ==>
      var name := filename + LookupExtensions[k.value];
      name in cache || ResourceName(prefix, name) in resources
    ensures forall j :: i <= j < |LookupExtensions| && (k.None? || j < k.value) ==>
      filename + LookupExtensions[j] !in cache && ResourceName(prefix, filename + LookupExtensions[j]) !in resources
    decreases |LookupExtensions| - i
  {
    if i == |LookupExtensions| then None
    else
      var name := filename + LookupExtensions[i];
      if name in cache || ResourceName(prefix, name) in resources then Some(i)
      else FirstLookup(filename, prefix, cache, resources, i + 1)
  }

  /**
   * Caching the usage under the name Get stopped at makes a later Get stop
   * at the same extension and find it in the cache: the extensions are
   * distinct, so no earlier name is added.
   */
  lemma {:induction false} LookupAfterCaching(filename: string, prefix: string, cache: map<string, StoreUsage>, resources: map<string, Image>, u: StoreUsage)
    requires FirstLookup(filename, prefix, cache, resources, 0).Some?
    ensures var k := FirstLookup(filename, prefix, cache, resources, 0).value;
      var name := filename + LookupExtensions[k];
      FirstLookup(filename, prefix, cache[name := u], resources, 0) == Some(k) && name in cache[name := u]
  {
    var k := FirstLookup(filename, prefix, cache, resources, 0).value;
    var name := filename + LookupExtensions[k];
    var cache' := cache[name := u];
    forall j | 0 <= j < k
      ensures filename + LookupExtensions[j] != name
    {
      assert (filename + LookupExtensions[j])[|filename|..] == LookupExtensions[j] != LookupExtensions[k] == name[|filename|..];
    }
    FirstLookupSkips(filename, prefix, cache', resources, 0, k);
  }

  /** Where no name before the `k`th is cached or has a resource, the lookup from `i` is the lookup from `k`. */
  lemma {:induction false} FirstLookupSkips(filename: string, prefix: string, cache: map<string, StoreUsage>, resources: map<string, Image>, i: nat, k: nat)
    requires i <= k <= |LookupExtensions|
    requires forall j :: i <= j < k ==> filename + LookupExtensions[j] !in cache && ResourceName(prefix, filename + LookupExtensions[j]) !in resources
    ensures FirstLookup(filename, prefix, cache, resources, i) == FirstLookup(filename, prefix, cache, resources, k)
    decreases k - i
  {
    if i < k {
      FirstLookupSkips(filename, prefix, cache, resources, i + 1, k);
    }
  }

  class TextureStore {
    const prefix: string
    const resources: map<string, Image>
    const mipLevels: int
    var atlases: seq<TextureAtlas>
    var textures: seq<LargeTexture>
    var textureCache: map<string, StoreUsage>

    /** The usage cached under `name` was made from that name's image. */
    ghost predicate MadeFrom(u: StoreUsage, name: string)
      reads this
    {
      && ResourceName(prefix, name) in resources
      && var img := resources[ResourceName(prefix, name)];
      match u
      case WholeTexture(k) => IsLarge(img) && k < |textures| && textures[k].image == img
      case Subtexture(a, tu) => !IsLarge(img) && a < |atlases| && tu.region.w == img.width && tu.region.h == img.height
      case NullUsage => !IsLarge(img)
      case BlankTexture => false
    }

    /** A valid 4096 x 4096 atlas made with the store's mip levels. */
    ghost predicate GoodAtlas(a: TextureAtlas)
      reads this, a
    {
      a.Valid() && a.width == AtlasSize && a.height == AtlasSize && a.mipLevels == mipLevels
    }

    /** The atlases are distinct and good. */
    ghost predicate AtlasesValid()
      reads this, atlases
    {
      && (forall i :: 0 <= i < |atlases| ==> GoodAtlas(atlases[i]))
      && (forall i, j :: 0 <= i < j < |atlases| ==> atlases[i] != atlases[j])
    }

    /** Every cached usage was made from the image of its name. */
    ghost predicate CacheValid()
      reads this
    {
      forall name :: name in textureCache ==> MadeFrom(textureCache[name], name)
    }

    ghost predicate Valid()
      reads this, atlases
    {
      && 0 <= mipLevels < 30
      && (forall name :: name in resources ==> ValidImage(resources[name]))
      && AtlasesValid()
      && CacheValid()
    }

    constructor (prefix: string, resources: map<string, Image>, mipLevels: int)
      requires 0 <= mipLevels < 30
      requires forall name :: name in resources ==> ValidImage(resources[name])
      ensures Valid()
      ensures this.prefix == prefix && this.resources == resources && this.mipLevels == mipLevels
      ensures atlases == [] && textures == [] && textureCache == map[]
    {
      this.prefix := prefix;
      this.resources := resources;
      this.mipLevels := mipLevels;
      atlases, textures, textureCache := [], [], map[];
    }

    /** The index of the first atlas with room for the image, or the number of atlases when none has. */
    ghost function FirstFit(img: Image): (k: nat)
      reads this, atlases
      requires Valid() && ValidImage(img)
      ensures k <= |atlases|
      ensures k < |atlases| ==> atlases[k].Fits(img.width, img.height)
      ensures forall j :: 0 <= j < k ==> !atlases[j].Fits(img.width, img.height)
    {
      FirstFitFrom(img, 0)
    }

    ghost function FirstFitFrom(img: Image, i: nat): (k: nat)
      reads this, atlases
      requires Valid() && ValidImage(img) && i <= |atlases|
      ensures i <= k <= |atlases|
      ensures k < |atlases| ==> atlases[k].Fits(img.width, img.height)
      ensures forall j :: i <= j < k ==> !atlases[j].Fits(img.width, img.height)
      decreases |atlases| - i
    {
      if i == |atlases| || atlases[i].Fits(img.width, img.height) then i else FirstFitFrom(img, i + 1)
    }

    /** addLargeTexture: a new texture of the image's size holding it. */
    method AddLargeTexture(img: Image) returns (u: StoreUsage)
      modifies this`textures
      ensures textures == old(textures) + [LargeTexture(img, mipLevels)]
      ensures u == WholeTexture(|old(textures)|)
    {
      textures := textures + [LargeTexture(img, mipLevels)];
      u := WholeTexture(|textures| - 1);
    }

    /**
     * The body of Get for a name neither cached nor seen before: the image
     * gets a texture of its own when large and a place in an atlas
     * otherwise, and the usage is cached under the name.
     */
    method LoadNew(name: string) returns (u: StoreUsage)
      requires Valid() && name !in textureCache && ResourceName(prefix, name) in resources
      modifies this`atlases, this`textures, this`textureCache, atlases
      ensures Valid()
      ensures textureCache == old(textureCache)[name := u] && MadeFrom(u, name)
      ensures old(textures) <= textures && old(atlases) <= atlases
      ensures var img := resources[ResourceName(prefix, name)];
        && (IsLarge(img) ==> u == WholeTexture(old(|textures|)) && textures == old(textures) + [LargeTexture(img, mipLevels)] && atlases == old(atlases))
        && (!IsLarge(img) ==> textures == old(textures) && (u.Subtexture? ==> u.atlas == old(FirstFit(img))))
    {
      var img := resources[ResourceName(prefix, name)];
      if img.width >= LargeSize || img.height >= LargeSize {
        u := AddLargeTexture(img);
      } else {
        u := AddRegularTexture(img);
      }
      assert CacheValid() by {
        forall n | n in textureCache
          ensures MadeFrom(textureCache[n], n)
        {
          assert old(MadeFrom(textureCache[n], n));
        }
      }
      textureCache := textureCache[name := u];
      assert AtlasesValid();
    }

    /**
     * Get: the usage cached or made for the name with the first extension
     * under which it is cached or has a resource; the blank texture when
     * there is none. Nothing changes unless a resource is loaded.
     */
    method Get(filename: string) returns (u: StoreUsage)
      requires Valid()
      modifies this`atlases, this`textures, this`textureCache, atlases
      ensures Valid()
      ensures var k := old(FirstLookup(filename, prefix, textureCache, resources, 0));
        k.None? ==> u == BlankTexture && unchanged(this) && forall j :: 0 <= j < |atlases| ==> unchanged(atlases[j])
      ensures var k := old(FirstLookup(filename, prefix, textureCache, resources, 0));
        k.Some? && filename + LookupExtensions[k.value] in old(textureCache) ==>
          u == old(textureCache[filename + LookupExtensions[k.value]]) && unchanged(this) && forall j :: 0 <= j < |atlases| ==> unchanged(atlases[j])
      ensures var k := old(FirstLookup(filename, prefix, textureCache, resources, 0));
        k.Some? && filename + LookupExtensions[k.value] !in old(textureCache) ==>
          var name := filename + LookupExtensions[k.value];
          && textureCache == old(textureCache)[name := u] && MadeFrom(u, name)
          && old(textures) <= textures && old(atlases) <= atlases
    {
      for i := 0 to |LookupExtensions|
        invariant unchanged(this) && forall j :: 0 <= j < |atlases| ==> unchanged(atlases[j])
        invariant FirstLookup(filename, prefix, textureCache, resources, 0) == FirstLookup(filename, prefix, textureCache, resources, i)
      {
        var actualFilename := filename + LookupExtensions[i];
        if actualFilename in textureCache {
          return textureCache[actualFilename];
        }
        if ResourceName(prefix, actualFilename) !in resources {
          continue;
        }
        u := LoadNew(actualFilename);
        return;
      }
      return BlankTexture;
    }

    /** One atlas is offered the image; the store stays valid. */
    method OfferTo(i: nat, img: Image) returns (usage: Option<TextureUsage>)
      requires Valid() && ValidImage(img) && i < |atlases|
      modifies atlases[i]
      ensures Valid()
      ensures usage.None? <==> !old(atlases[i].Fits(img.width, img.height))
      ensures usage.None? ==> unchanged(atlases[i])
      ensures usage.Some? ==> usage.value.region.w == img.width && usage.value.region.h == img.height
    {
      usage := atlases[i].AddSubtexture(img);
      assert AtlasesValid() by {
        forall j | 0 <= j < |atlases|
          ensures GoodAtlas(atlases[j])
        {
          if j != i {
            assert old(GoodAtlas(atlases[j]));
          }
        }
      }
    }

    /**
     * The loop of addRegularTexture over the atlases: the image goes into
     * the first atlas with room for it, the others staying as they are.
     */
    method TryAtlases(img: Image) returns (found: Option<(nat, TextureUsage)>)
      requires Valid() && ValidImage(img)
      modifies atlases
      ensures Valid()
      ensures found.None? ==> old(FirstFit(img)) == |atlases| && forall j :: 0 <= j < |atlases| ==> unchanged(atlases[j])
      ensures found.Some? ==>
        && found.value.0 == old(FirstFit(img)) < |atlases|
        && found.value.1.region.w == img.width && found.value.1.region.h == img.height
        && forall j :: 0 <= j < |atlases| && j != found.value.0 ==> unchanged(atlases[j])
    {
      ghost var k := FirstFit(img);
      for i := 0 to |atlases|
        invariant Valid()
        invariant forall j :: 0 <= j < |atlases| ==> unchanged(atlases[j])
        invariant i <= k
      {
        assert unchanged(atlases[i]);
        var usage := OfferTo(i, img);
        if usage.Some? {
          return Some((i, usage.value));
        }
      }
      return None;
    }

    /** The end of addRegularTexture: a new atlas is made, appended and given the image. */
    method AppendAtlasWith(img: Image) returns (usage: Option<TextureUsage>)
      requires Valid() && ValidImage(img)
      modifies this`atlases
      ensures Valid()
      ensures |atlases| == old(|atlases|) + 1 && atlases[..old(|atlases|)] == old(atlases) && fresh(atlases[old(|atlases|)])
      ensures usage.Some? ==> usage.value.region.w == img.width && usage.value.region.h == img.height
      ensures 0 <= mipLevels <= 10 && !IsLarge(img) ==> usage.Some?
    {
      var newAtlas := new TextureAtlas.Initialize(AtlasSize, AtlasSize, mipLevels);
      atlases := atlases + [newAtlas];
      if 0 <= mipLevels <= 10 && !IsLarge(img) {
        FreshAtlasTakesSmallImage(mipLevels, img.width, img.height);
      }
      usage := newAtlas.AddSubtexture(img);
      assert AtlasesValid() by {
        forall j | 0 <= j < |atlases|
          ensures GoodAtlas(atlases[j])
        {
          if j < old(|atlases|) {
            assert atlases[j] == old(atlases[j]);
            assert old(GoodAtlas(atlases[j]));
          }
        }
      }
      assert CacheValid() by {
        forall name | name in textureCache
          ensures MadeFrom(textureCache[name], name)
        {
          assert old(MadeFrom(textureCache[name], name));
        }
      }
    }

    /**
     * addRegularTexture: the image goes into the first atlas with room for
     * it, the others staying as they are; when none has room a new atlas is
     * made, appended and given the image. A small image always finds room
     * in a new atlas with at most 10 mip levels.
     */
    method AddRegularTexture(img: Image) returns (u: StoreUsage)
      requires Valid() && ValidImage(img)
      modifies this`atlases, atlases
      ensures Valid()
      ensures var k := old(FirstFit(img));
        && (k < old(|atlases|) ==> atlases == old(atlases))
        && (k == old(|atlases|) ==> |atlases| == k + 1 && atlases[..k] == old(atlases) && fresh(atlases[k]))
        && (u.Subtexture? ==> u.atlas == k && u.usage.region.w == img.width && u.usage.region.h == img.height)
        && (u.Subtexture? || u == NullUsage)
        && (k < old(|atlases|) ==> u.Subtexture?)
        && (forall j :: 0 <= j < old(|atlases|) && j != k ==> unchanged(old(atlases)[j]))
      ensures 0 <= mipLevels <= 10 && !IsLarge(img) ==> u.Subtexture?
    {
      var found := TryAtlases(img);
      if found.Some? {
        return Subtexture(found.value.0, found.value.1);
      }
      var usage := AppendAtlasWith(img);
      if usage.None? {
        return NullUsage;
      }
      return Subtexture(|atlases| - 1, usage.value);
    }
  }

}
