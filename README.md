# split_dataset: a verified model

`split_dataset.py` splits a folder of labelled images into train, validation
and test folders. It checks that `--datapath` is a directory and that
`train_pct + test_pct` is below 1, creates six output folders under the
working directory (`data/{train,validation,test}/{images,labels}`), collects
every `.jpg`, `.png` or `.jpeg` file below `<datapath>/images` (the
extension compared in lower case), shuffles the list, turns the ratios into
counts (`int(N * pct)` for train and test, the rest for validation), slices
the shuffled list into the three groups and copies each image, and its
`<stem>.txt` annotation from `<datapath>/labels` when that exists, into the
group's folders.

The model is split into modules that follow the script:

- `Outcomes`: `Option`, `Result` and the ways a run ends early (missing
  directory, ratios too large, a folder that cannot be created, a copy that
  raises).
- `Paths`: a path as a parent directory and a name; pathlib's `suffix` and
  `stem`; ASCII lower-casing; the image test of line 56.
- `Selection`: the list comprehension of line 56 over the walk `rglob`
  yields.
- `Ratios`: the argument checks of lines 26-34, Python's `int()` on a float
  (truncation toward zero) and the counts of lines 64-67, over exact reals.
- `Shuffling`: `random.shuffle` as CPython runs it (for `i` from `n-1` down
  to 1, swap `a[i]` with `a[j]`, `j` drawn from `[0, i]`), in place on an
  array; the draws are a parameter.
- `Slicing`: Python slice semantics (negative bounds count from the end,
  bounds are clamped) and the three slices of lines 84-86.
- `Disk`: the file system as a map from file paths to contents plus a set of
  directories, with `shutil.copy`, `os.makedirs(..., exist_ok=True)`,
  `os.path.exists` and `os.path.isdir`, both as functions on values and as
  methods of the `FileSystem` class that update it in place.
- `Copying`: `copy_files` (lines 72-81) as a function on the file system and
  as a loop over `FileSystem`, with lemmas on what it writes.
- `SplitDataset`: the folder-creation loop (lines 50-53), the three calls of
  lines 88-90 and the whole script (`Split` as a function, `Run` as a method
  on `FileSystem`), with the end-to-end properties.

An exception ends the script; the model returns `Err` at that point and keeps
the file system as it was left, so files copied before a failing copy stay.

A few points of the code's behaviour that the model keeps as they are:

- Line 30 checks only the sum of the ratios, so negative ratios pass.
  Properties that need non-negative ratios say so in their `requires`.
- Validation is the middle block of the shuffled list and test the tail
  (lines 84-86).
- `int()` truncates toward zero (lines 65-66), which differs from rounding
  down for negative products.
- All six output folders are created (lines 50-53) before any image is
  listed.
- Images with the same name in different sub-folders go to the same target,
  so the later copy overwrites the earlier one (`CopyAllImageContents`).
- The copy of line 81 happens only when the annotation exists, so a
  `<stem>.txt` an earlier run left in a labels folder stays as it is when the
  annotation is missing (`CopyAllFrame`).

## Model

| member | source | states |
|---|---|---|
| Ratios.Validate | split_dataset.py:26-34 | succeeds exactly when the data path is a directory and train + test < 1; a missing directory is reported first, then ratios that are too large; on success the shares are the given ones and validation's share is positive, and all three add up to 1 (at most 1 for non-negative ratios) |
| Ratios.Truncate | split_dataset.py:65-66 | `int()` on a float: the result is within 1 of the input, toward zero, for both signs |
| Ratios.CountsFor | split_dataset.py:64-67 | the three counts add up to the number of images, for any ratios |
| Ratios.CountsInRange | split_dataset.py:64-67 | for accepted non-negative ratios every count lies in [0, N], and a non-empty data set leaves at least one image for validation |
| Ratios.DefaultRatiosOnTenImages | split_dataset.py:64-67 | with the default ratios 0.7 and 0.2, ten images split 7 / 1 / 2 |
| Paths.Suffix | split_dataset.py:56 | pathlib's suffix is empty exactly when the name has no dot after its first character or ends in a dot; otherwise it is the dot-led tail after the last dot |
| Paths.Stem | split_dataset.py:75 | stem followed by suffix gives back the name; the stem is empty only for the empty name |
| Paths.SuffixAt | split_dataset.py:56 | the last dot, when strictly inside the name, splits it into stem and suffix |
| Paths.SuffixOfLower | split_dataset.py:56 | taking the suffix and lower-casing commute |
| Paths.ImageTestIgnoresCase | split_dataset.py:56 | two names that lower-case alike are both images or both not |
| Paths.UpperCaseExtensionAccepted | split_dataset.py:56 | `cat.JPG` is an image |
| Paths.LastExtensionDecides | split_dataset.py:56 | `scan.tar.png` is an image: only the last extension counts |
| Paths.TextFileRejected | split_dataset.py:56 | `a.txt` is not an image |
| Paths.NoSuffixNoImage | split_dataset.py:56 | `.jpg` and `photo.jpg.` have no suffix and are not images |
| Selection.SelectImages | split_dataset.py:56 | a path is selected exactly when the walk yields it and it is an image, as often as the walk yields it, in walk order |
| Shuffling.Shuffle | split_dataset.py:61 | the array ends as the Fisher-Yates shuffle of its old contents under the draws, and holds the same elements |
| Shuffling.FisherYatesPermutes | split_dataset.py:61 | the shuffle keeps the length and the multiset of the list |
| Slicing.Bound | split_dataset.py:84-86 | a slice bound lands in [0, N]; a bound in range is kept, a negative one counts from the end |
| Slicing.Slice | split_dataset.py:84-86 | a slice is never longer than the list, and with bounds in range it is the ordinary sub-sequence |
| Slicing.PartitionIsExact | split_dataset.py:84-86 | with counts that fit, the three slices are consecutive blocks of the requested lengths whose concatenation is the list |
| Slicing.PartitionCovers | split_dataset.py:84-86 | whatever the counts, an element is in the list exactly when it is in one of the three slices |
| Slicing.BlocksDisjoint | split_dataset.py:84-86 | with counts that fit and no element twice in the list, no element is in two slices |
| Disk.CopyEffect | split_dataset.py:79-81 | `shutil.copy` succeeds exactly when the source is a regular file, the target's folder exists, and the target is neither a folder nor the source; then only the target is written, with the source's contents |
| Disk.CopyKeepsWellFormed | split_dataset.py:79-81 | a copy keeps the file system consistent |
| Disk.FileSystem.Copy | split_dataset.py:79-81 | the method changes the files as `AfterCopy` says, or not at all when it fails, and keeps the folders |
| Disk.AfterMakeDirs | split_dataset.py:53 | `os.makedirs` succeeds exactly when no component of the path is a file; then the folders are the old ones plus the path and all of its ancestors |
| Disk.MakeDirsKeepsWellFormed | split_dataset.py:53 | creating folders keeps the file system consistent |
| Disk.FileSystem.MakeDirs | split_dataset.py:53 | the method changes the folders as `AfterMakeDirs` says, or not at all when it fails, and keeps the files |
| Copying.CopyOneSucceeds | split_dataset.py:73-81 | under `Separate`, one pass succeeds exactly when the images folder exists, the image is a regular file and its annotation, if it exists, is a regular file with a labels folder to go to |
| Copying.CopyOneWrites | split_dataset.py:73-81 | under `Separate`, a successful pass adds the image target with the image's contents and, exactly when the annotation exists, the label target with the annotation's contents |
| Copying.CopyOneFrameAt | split_dataset.py:73-81 | when the two destination folders have no sub-folders (`Leaf`), one pass leaves every path other than its two targets as it was |
| Copying.CopyOneUntouchedAt | split_dataset.py:73-81 | under `Separate`, one pass leaves every path other than its image target as it was, and its label target too when the annotation does not exist |
| Copying.CopyAllFrame | split_dataset.py:72-81 | under `Separate`, copying a group, successful or not, changes no path other than the group's image targets and the label targets of images whose annotation exists; a label target of an image without annotation keeps what was there |
| Copying.CopyAllUntouchedAt | split_dataset.py:72-81 | under `Separate`, a path that is no image target of the group, and a label target only of images without annotation, keeps its presence and contents |
| Copying.OutsideDestinationsUnchanged | split_dataset.py:72-81 | under `Separate`, copying a group changes nothing outside its two destination folders |
| Copying.SourcesSurviveOnePass | split_dataset.py:72-81 | under `Separate`, a pass leaves every image and annotation of the group, and whether it can be copied, as it was |
| Copying.CopyAllSucceeds | split_dataset.py:72-81 | under `Separate`, a group copy succeeds exactly when every image and existing annotation of the group can be copied, judged on the files before the run |
| Copying.CopyAllTargets | split_dataset.py:72-81 | under `Separate`, after a successful group copy the files are the old ones plus one image target per image and one label target per image whose annotation exists |
| Copying.CopyAllImageContents | split_dataset.py:72-81 | under `Separate`, after a successful group copy an image target holds the contents of the last image of that name |
| Copying.CopyAllLabelContents | split_dataset.py:72-81 | under `Separate`, after a successful group copy the label target of an image whose annotation exists holds that annotation's contents |
| Copying.CopyAllKeepsKeys | split_dataset.py:72-81 | a group copy, successful or not, removes no file |
| Copying.CopyAllDelivers | split_dataset.py:72-81 | under `Separate`, a successful group copy delivers the group (`Delivered`): each image target holds the last image of that name, each label target of an existing annotation holds the annotation |
| Copying.DeliveredKept | split_dataset.py:88-90 | under `Separate`, copying another group into folders apart from this group's keeps what this group delivered |
| Copying.DeliveredFromEarlier | split_dataset.py:88-90 | under `Separate`, copying an earlier group into folders that hold none of this group's images leaves this group's images and annotations as they were, so what it delivers is measured against the files before both copies |
| Copying.LabelsCopiedFromEarlier | split_dataset.py:88-90 | under `Separate`, copying an earlier group does not change which annotations of a later group exist |
| Copying.CopyFiles | split_dataset.py:72-81 | the loop leaves the files and the success flag that `CopyAll` describes and keeps the folders |
| SplitDataset.GroupDest | split_dataset.py:42-47 | a group's images and labels folders are distinct and each three components longer than the working directory |
| SplitDataset.GroupsApart | split_dataset.py:42-47 | the folders of two groups of different names are all different |
| SplitDataset.DestsApart | split_dataset.py:42-47 | the train, validation and test folders are six different folders |
| SplitDataset.OutputDirs | split_dataset.py:50-52 | six folders, each three levels below the working directory |
| SplitDataset.MakeAllEffect | split_dataset.py:50-53 | the folder loop succeeds exactly when no requested folder has a file on its path; then every requested folder and its ancestors exist; it only adds folders, and only ancestors of requested ones |
| SplitDataset.CreateDirs | split_dataset.py:50-53 | the loop leaves the folders and the success flag that `MakeAll` describes and keeps the files |
| SplitDataset.MakeAllAddsShort | split_dataset.py:50-53 | the folder loop adds no folder deeper than the requested ones |
| SplitDataset.LeafAfterMakeAll | split_dataset.py:50-53 | creating the output folders gives none of them a sub-folder |
| SplitDataset.ShuffleImages | split_dataset.py:61 | the shuffled list is the Fisher-Yates shuffle of the selected images and a reordering of them |
| SplitDataset.CopyEachGroup | split_dataset.py:88-90 | the three calls leave the files and the success flag that `CopyGroups` describes |
| SplitDataset.CopyGroupsFrame | split_dataset.py:88-90 | under `Separate` for each group, the three group copies change no file outside the six output folders |
| SplitDataset.LayoutSeparates | split_dataset.py:88-90 | the group layout (`GroupsLayout`) gives each group `Separate` and keeps every later group's images out of earlier groups' folders |
| SplitDataset.CopyGroupsTargets | split_dataset.py:88-90 | under `GroupsLayout`, after the three copies the files are the old ones plus, for each group, one image target per image and one label target per image whose annotation existed before the run |
| SplitDataset.CopyGroupsContents | split_dataset.py:88-90 | under `GroupsLayout`, after the three copies every group is delivered, measured against the files before the run: each image target holds the last image of that name in its group, each annotation copy the annotation |
| SplitDataset.RunSplit | split_dataset.py:56-90 | selecting, shuffling, counting, slicing and copying on the file system leave the result and files `SplitImages` describes |
| SplitDataset.Run | split_dataset.py:21-92 | the whole script on the file system leaves the result, files and folders `Split` describes |
| SplitDataset.RejectedRunChangesNothing | split_dataset.py:26-32 | a run ends with a directory or ratio error exactly when validation rejects the arguments, and then no folder or file is touched |
| SplitDataset.SplitImagesResult | split_dataset.py:56-90 | once the folders exist, a run either completes or ends with a copy error |
| SplitDataset.SplitReport | split_dataset.py:56-86 | a completed run reports the shuffle of the selected images, which holds the same images, the counts for their number and the three slices by those counts, and had train + test < 1 |
| SplitDataset.ReportOfSplit | split_dataset.py:61-86 | the groups together hold exactly the images; for non-negative accepted ratios they are consecutive blocks of the counted sizes whose concatenation is the shuffled list, and validation is non-empty when there are images |
| SplitDataset.SelectedOnce | split_dataset.py:56 | a walk that yields each path once gives a selection without repeats |
| SplitDataset.DisjointGroups | split_dataset.py:61-86 | with distinct images and non-negative accepted ratios, no image is in two groups |
| SplitDataset.DistinctImagesInOneGroup | split_dataset.py:56-86 | when the walk yields each path once and the ratios are not negative, a completed run puts no image into two groups |
| SplitDataset.GroupsFromWalk | split_dataset.py:56-86 | every image of every group comes from the walk |
| SplitDataset.GroupsSeparate | split_dataset.py:50-86 | under the layout hypothesis, the groups of a run meet `GroupsLayout` once the folders exist |
| SplitDataset.SplitLeavesOtherFilesAlone | split_dataset.py:26-90 | under the layout hypothesis, whatever happens, no file outside the six output folders is created, removed or changed |
| SplitDataset.SplitCopiesEveryImage | split_dataset.py:56-90 | under the layout hypothesis, a completed run adds exactly one image target per grouped image and one label target per image whose annotation exists, and every group is delivered: image copies hold the last image of that name in the group, annotation copies the annotation, as they were before the run |
| SplitDataset.NegativeRatioCopiesTwice | split_dataset.py:64-86 | the ratios -0.3 and 0.5 pass the checks, give the counts -3, 8 and 5 on ten images, and the slices then put the sixth and seventh image into both train and test while validation is empty |

## Left out

- Argument parsing, the console messages and `sys.exit` (lines 11-23, 27-28, 31-32, 58, 69, 92): the two rejections are the `Err` results of `Validate`, and nothing is printed.
- Float arithmetic: ratios, their sum and the products `N * pct` are exact reals. Not modelled: a product that IEEE rounding would push across an integer; the rounded sum at line 30, which can reach 1.0 for ratios whose exact sum is below 1 (train = 1 - 2^-53, test = 2^-54 is rejected by the script and accepted by `Ratios.Validate`); and `nan`, `inf` and `-inf`, which `type=float` accepts: a NaN or infinite ratio can pass line 30, and then `int()` at line 65 or 66 raises ValueError or OverflowError after the folders exist, a failure that `SplitDataset.SplitImagesResult` and `SplitDataset.RejectedRunChangesNothing` do not describe.
- `Path.rglob`: the walk below `<datapath>/images` is a parameter, in the order it yields; which entries it yields and in what order is not modelled.
- The randomness of `random.shuffle`: the indices the random source yields are a parameter (`draws`), so the model covers every possible shuffle but says nothing about their distribution.
- `os.getcwd()` is a parameter (`cwd`); `os.path.join` of a relative string is modelled as appending path components.
- `str.lower` is modelled on ASCII letters only; other Unicode case mappings are not modelled.
- pathlib's `suffix` and `stem` follow Python up to 3.13; the changed rule for names ending in a dot in later versions is not modelled.
- `shutil.copy`: symbolic links, hard links and the same-file check beyond equal paths, permissions, metadata, disk-full and other I/O errors are not modelled; a copy fails only in the cases `Disk.CopyEffect` names.
- `os.makedirs`: a failure leaves the folders unchanged, which is what happens on a consistent file system (the ancestors it would create before the conflicting file already exist); races with other processes are not modelled.
- Copying.CopyOneSucceeds, Copying.CopyOneWrites, Copying.CopyOneUntouchedAt, Copying.CopyAllFrame, Copying.CopyAllUntouchedAt, Copying.OutsideDestinationsUnchanged, Copying.SourcesSurviveOnePass, Copying.CopyAllSucceeds, Copying.CopyAllTargets, Copying.CopyAllImageContents, Copying.CopyAllLabelContents, Copying.CopyAllDelivers, Copying.DeliveredKept, Copying.DeliveredFromEarlier, Copying.LabelsCopiedFromEarlier, SplitDataset.CopyGroupsFrame: assume the destination folders have no sub-folders, are distinct from the labels folder and do not hold the images (`Separate`); without it they can be false: a destination with a sub-folder of an image's name makes `shutil.copy` write inside it, and with `--datapath data/train` the labels folder is a destination, so copying an annotation onto itself raises.
- Copying.CopyOneFrameAt: assumes the two destination folders have no sub-folders (`Leaf`).
- SplitDataset.LayoutSeparates, SplitDataset.CopyGroupsTargets, SplitDataset.CopyGroupsContents: assume `GroupsLayout` (output folders without sub-folders, the labels folder and the images' folders not among them).
- SplitDataset.GroupsSeparate, SplitDataset.SplitLeavesOtherFilesAlone, SplitDataset.SplitCopiesEveryImage: assume the `Layout` hypothesis (output folders without sub-folders before the run, the labels folder not among them, no image directly in one of them).
- SplitDataset.DistinctImagesInOneGroup: assumes non-negative ratios; `SplitDataset.NegativeRatioCopiesTwice` shows that negative ratios do put an image into two groups.
